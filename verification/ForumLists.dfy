/** Stored lists: what handing out and erasing does to one topic's list. */
module ForumLists {
  import opened ForumState

  /** Ids strictly ascend, start above `lo` and end by `hi`; no stored count is zero or negative. */
  predicate Ascending(ms: seq<Message>, lo: nat, hi: nat) {
    ms == [] ||
    (lo < ms[0].id <= hi && ms[0].refCount >= 1 && Ascending(ms[1..], ms[0].id, hi))
  }

  lemma {:induction false} AscendingIds(ms: seq<Message>, lo: nat, hi: nat)
    requires Ascending(ms, lo, hi)
    ensures forall i :: 0 <= i < |ms| ==> lo < ms[i].id <= hi && ms[i].refCount >= 1
    ensures forall i, j :: 0 <= i < j < |ms| ==> ms[i].id < ms[j].id
  {
    if ms != [] {
      AscendingIds(ms[1..], ms[0].id, hi);
      assert ms == [ms[0]] + ms[1..];
    }
  }

  lemma {:induction false} AscendingRefs(ms: seq<Message>, lo: nat, hi: nat, id: nat)
    requires Ascending(ms, lo, hi)
    ensures HasId(ms, id) <==> RefOf(ms, id) > 0
    ensures RefOf(ms, id) >= 0
    ensures HasId(ms, id) ==> lo < id <= hi
  {
    if ms != [] {
      AscendingRefs(ms[1..], ms[0].id, hi, id);
      assert ms == [ms[0]] + ms[1..];
      if ms[0].id == id {
        assert ms[0] in ms;
      }
    }
  }

  lemma {:induction false} AscendingAppend(ms: seq<Message>, lo: nat, hi: nat, m: Message, id: nat)
    requires Ascending(ms, lo, hi) && lo <= hi < m.id && m.refCount >= 1
    ensures Ascending(ms + [m], lo, m.id)
    ensures RefOf(ms + [m], id) == if id == m.id then m.refCount else RefOf(ms, id)
  {
    if ms == [] {
      assert ms + [m] == [m];
    } else {
      AscendingAppend(ms[1..], ms[0].id, hi, m, id);
      assert (ms + [m])[1..] == ms[1..] + [m];
    }
  }

  lemma {:induction false} AscendingWeaken(ms: seq<Message>, lo: nat, hi: nat, lo': nat, hi': nat)
    requires Ascending(ms, lo, hi) && lo' <= lo && hi <= hi'
    ensures Ascending(ms, lo', hi')
  {
    if ms != [] {
      AscendingWeaken(ms[1..], ms[0].id, hi, ms[0].id, hi');
    }
  }

  lemma {:induction false} HandedAscending(ms: seq<Message>, lo: nat, hi: nat, last: nat)
    requires Ascending(ms, lo, hi)
    ensures Ascending(Handed(ms, last), lo, hi)
  {
    if ms != [] {
      var tail := Handed(ms[1..], last);
      HandedAscending(ms[1..], ms[0].id, hi, last);
      AscendingWeaken(tail, ms[0].id, hi, lo, hi);
      assert [] + tail == tail && ([ms[0]] + tail)[1..] == tail;
    }
  }

  lemma {:induction false} KeptAscending(ms: seq<Message>, lo: nat, hi: nat, last: nat)
    requires Ascending(ms, lo, hi)
    ensures Ascending(Kept(ms, last), lo, hi)
  {
    if ms != [] {
      var tail := Kept(ms[1..], last);
      KeptAscending(ms[1..], ms[0].id, hi, last);
      AscendingWeaken(tail, ms[0].id, hi, lo, hi);
      var m := if ms[0].id > last then ms[0].(refCount := ms[0].refCount - 1) else ms[0];
      assert [] + tail == tail && ([m] + tail)[1..] == tail;
    }
  }

  lemma HasIdCons(m: Message, ms: seq<Message>, id: nat)
    ensures HasId([m] + ms, id) <==> m.id == id || HasId(ms, id)
  {
    var all := [m] + ms;
    if m.id == id {
      assert all[0] in all;
    }
    if HasId(ms, id) {
      var x :| x in ms && x.id == id;
      assert x in all;
    }
  }

  lemma HasIdAppend(ms: seq<Message>, m: Message, id: nat)
    ensures HasId(ms + [m], id) <==> HasId(ms, id) || m.id == id
  {
    var all := ms + [m];
    if m.id == id {
      assert all[|ms|] in all;
    }
    if HasId(ms, id) {
      var x :| x in ms && x.id == id;
      assert x in all;
    }
  }

  /** Handing out takes exactly the stored ids above the mark. */
  lemma {:induction false} HandedIds(ms: seq<Message>, last: nat, id: nat)
    ensures HasId(Handed(ms, last), id) <==> HasId(ms, id) && id > last
  {
    if ms != [] {
      HandedIds(ms[1..], last, id);
      HasIdCons(ms[0], ms[1..], id);
      HasIdCons(ms[0], Handed(ms[1..], last), id);
      assert ms == [ms[0]] + ms[1..];
      assert [] + Handed(ms[1..], last) == Handed(ms[1..], last);
    }
  }

  /** Each count handed out drops by one; the entry goes exactly when its count was one. */
  lemma {:induction false} KeptRefs(ms: seq<Message>, lo: nat, hi: nat, last: nat, id: nat)
    requires Ascending(ms, lo, hi)
    ensures RefOf(Kept(ms, last), id) == RefOf(ms, id) - (if RefOf(ms, id) > 0 && id > last then 1 else 0)
  {
    if ms != [] {
      var m, rest := ms[0], ms[1..];
      KeptRefs(rest, m.id, hi, last, id);
      AscendingRefs(rest, m.id, hi, id);
      KeptAscending(rest, m.id, hi, last);
      AscendingRefs(Kept(rest, last), m.id, hi, id);
      KeptFirst(ms, last, id);
    }
  }

  lemma KeptFirst(ms: seq<Message>, last: nat, id: nat)
    requires ms != []
    ensures var m, others := ms[0], RefOf(Kept(ms[1..], last), id);
            var left := if m.id > last then m.refCount - 1 else m.refCount;
            RefOf(Kept(ms, last), id) == if left != 0 && m.id == id then left else others
  {
    var m := ms[0];
    var m' := if m.id > last then m.(refCount := m.refCount - 1) else m;
    RefOfFirst(m', Kept(ms[1..], last), id);
    assert Kept(ms, last) == (if m'.refCount == 0 then [] else [m']) + Kept(ms[1..], last);
  }

  lemma RefOfFirst(m: Message, tail: seq<Message>, id: nat)
    ensures RefOf([m] + tail, id) == if m.id == id then m.refCount else RefOf(tail, id)
    ensures [] + tail == tail
  {
    assert ([m] + tail)[1..] == tail;
  }
}
