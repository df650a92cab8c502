/** How the sums over a ledger's entries react to one entry being written. */
module LedgerSums {
  import opened QuotaLedger

  lemma {:induction false} SumPick(ids: set<RequestId>, m: map<RequestId, Entry>, k: Measure, id: RequestId)
    requires ids <= m.Keys && id in ids
    ensures SumOver(ids, m, k) == Weight(k, m[id]) + SumOver(ids - {id}, m, k)
  {
    var first :| first in ids && SumOver(ids, m, k) == Weight(k, m[first]) + SumOver(ids - {first}, m, k);
    if first != id {
      SumPick(ids - {first}, m, k, id);
      SumPick(ids - {id}, m, k, first);
      assert ids - {first} - {id} == ids - {id} - {first};
    }
  }

  /** A sum only reads the entries it ranges over. */
  lemma {:induction false} SumAgree(ids: set<RequestId>, m: map<RequestId, Entry>, n: map<RequestId, Entry>, k: Measure)
    requires ids <= m.Keys && ids <= n.Keys
    requires forall id :: id in ids ==> m[id] == n[id]
    ensures SumOver(ids, m, k) == SumOver(ids, n, k)
  {
    if ids != {} {
      var first :| first in ids && SumOver(ids, m, k) == Weight(k, m[first]) + SumOver(ids - {first}, m, k);
      SumAgree(ids - {first}, m, n, k);
      SumPick(ids, n, k, first);
    }
  }

  function WeightAt(m: map<RequestId, Entry>, k: Measure, id: RequestId): nat {
    if id in m then Weight(k, m[id]) else 0
  }

  /** Writing one entry moves a sum by the difference of that entry's weights. */
  lemma SumUpdate(m: map<RequestId, Entry>, k: Measure, id: RequestId, e: Entry)
    ensures Sum(m[id := e], k) == Sum(m, k) - WeightAt(m, k, id) + Weight(k, e)
  {
    var n, rest := m[id := e], m.Keys - {id};
    SumPick(n.Keys, n, k, id);
    assert n.Keys - {id} == rest;
    SumAgree(rest, m, n, k);
    if id in m {
      SumPick(m.Keys, m, k, id);
    } else {
      assert rest == m.Keys;
    }
  }

  lemma SumAtLeast(m: map<RequestId, Entry>, k: Measure, id: RequestId)
    requires id in m
    ensures Sum(m, k) >= Weight(k, m[id])
  {
    SumPick(m.Keys, m, k, id);
  }

  /** A count is zero exactly when no entry carries it. */
  lemma {:induction false} SumZero(ids: set<RequestId>, m: map<RequestId, Entry>, k: Measure)
    requires ids <= m.Keys
    ensures SumOver(ids, m, k) == 0 <==> forall id :: id in ids ==> Weight(k, m[id]) == 0
  {
    if ids != {} {
      var first :| first in ids && SumOver(ids, m, k) == Weight(k, m[first]) + SumOver(ids - {first}, m, k);
      SumZero(ids - {first}, m, k);
      assert forall id :: id in ids ==> id == first || id in ids - {first};
    }
  }

  /** The states a count measure counts; the request count counts every entry. */
  predicate Counts(k: Measure, e: Entry) {
    match k
    case ReservedCount => e.state.Reserved?
    case UncertainCount => e.state.Uncertain?
    case RequestCount => true
    case _ => false
  }

  function Counted(ids: set<RequestId>, m: map<RequestId, Entry>, k: Measure): set<RequestId>
    requires ids <= m.Keys
  {
    set id | id in ids && Counts(k, m[id])
  }

  lemma CountedOneMore(ids: set<RequestId>, m: map<RequestId, Entry>, k: Measure, id: RequestId)
    requires ids <= m.Keys && id in ids && (k.ReservedCount? || k.UncertainCount? || k.RequestCount?)
    ensures |Counted(ids, m, k)| == Weight(k, m[id]) + |Counted(ids - {id}, m, k)|
  {
    var rest := Counted(ids - {id}, m, k);
    if Counts(k, m[id]) {
      assert Counted(ids, m, k) == rest + {id};
    } else {
      assert Counted(ids, m, k) == rest;
    }
  }

  /** A count is the number of entries it counts. */
  lemma {:induction false} CountIsSize(ids: set<RequestId>, m: map<RequestId, Entry>, k: Measure)
    requires ids <= m.Keys && (k.ReservedCount? || k.UncertainCount? || k.RequestCount?)
    ensures SumOver(ids, m, k) == |Counted(ids, m, k)|
  {
    if ids == {} {
      assert Counted(ids, m, k) == {};
    } else {
      var first :| first in ids && SumOver(ids, m, k) == Weight(k, m[first]) + SumOver(ids - {first}, m, k);
      CountIsSize(ids - {first}, m, k);
      CountedOneMore(ids, m, k, first);
    }
  }
}
