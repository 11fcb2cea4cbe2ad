/** What each entry edit does to a section's entry table and to the order of its IDs. */
module EntryEdits {
  import opened Contracts
  import opened Strings
  import opened Documents
  import opened Domain
  import opened DocumentBridge
  import opened SectionEdits

  function Ids(s: Section): seq<Id> {
    EntryIdSeq(EntriesOf(s))
  }

  // ---- Common prefixes ----

  lemma {:induction false} AgreeingAtLeast(a: seq<Id>, b: seq<Id>, n: nat)
    requires n <= |a| && n <= |b| && a[..n] == b[..n]
    ensures Agreeing(a, b) >= n
  {
    if n > 0 {
      assert a[0] == a[..n][0] == b[..n][0] == b[0];
      assert a[1..][..n - 1] == a[..n][1..] == b[..n][1..] == b[1..][..n - 1];
      AgreeingAtLeast(a[1..], b[1..], n - 1);
    }
  }

  lemma AppendAgrees(a: seq<Id>, x: Id, b: seq<Id>)
    ensures Agreeing(a + [x], b) >= Agreeing(a, b)
  {
    var n := Agreeing(a, b);
    assert (a + [x])[..n] == a[..n];
    AgreeingAtLeast(a + [x], b, n);
  }

  /** Moving the expected ID into the first differing place extends the agreement. */
  lemma ShiftAgrees(a: seq<Id>, k: nat, b: seq<Id>)
    requires forall i, j :: 0 <= i < j < |b| ==> b[i] != b[j]
    requires var n := Agreeing(a, b); n < |b| && k < |a| && a[k] == b[n]
    ensures var n := Agreeing(a, b);
            n < k && n <= |Remove(a, k)| && Agreeing(Insert(Remove(a, k), n, a[k]), b) > n
  {
    var n := Agreeing(a, b);
    var r := Insert(Remove(a, k), n, a[k]);
    assert Remove(a, k)[..n] == a[..n];
    assert r[..n] == a[..n];
    assert r[..n + 1] == r[..n] + [b[n]];
    assert b[..n + 1] == b[..n] + [b[n]];
    AgreeingAtLeast(r, b, n + 1);
  }

  // ---- Entry lists: tables under insertion, removal and replacement ----

  lemma TableKeys(es: seq<Entry>)
    requires UniqueEntries(es)
    ensures forall i :: 0 <= i < |es| ==> es[i].id in EntriesById(es) && EntriesById(es)[es[i].id] == es[i]
    ensures forall x :: x in EntriesById(es) <==> FindEntry(es, x) < |es|
  {
    EntriesByIdSound(es);
    forall x | FindEntry(es, x) < |es| ensures x in EntriesById(es) {
      assert es[FindEntry(es, x)].id == x;
    }
  }

  lemma {:induction false} TouchTable(es: seq<Entry>, k: nat, e: Entry)
    requires UniqueEntries(es) && k < |es| && e.id == es[k].id
    ensures EntriesById(es[k := e]) == EntriesById(es)[e.id := e]
  {
    var n := |es| - 1;
    var init := es[..n];
    if k < n {
      assert es[k := e][..n] == init[k := e];
      TouchTable(init, k, e);
      assert es[k].id != es[n].id;
    } else {
      assert es[k := e][..n] == init;
    }
  }

  lemma {:induction false} RemoveTable(es: seq<Entry>, k: nat)
    requires UniqueEntries(es) && k < |es|
    ensures EntriesById(Remove(es, k)) == EntriesById(es) - {es[k].id}
  {
    var n := |es| - 1;
    var init := es[..n];
    if k < n {
      RemoveTable(init, k);
      RemoveInside(es, k);
    } else {
      RemoveLast(es);
    }
  }

  lemma RemoveLast(es: seq<Entry>)
    requires UniqueEntries(es) && es != []
    ensures EntriesById(Remove(es, |es| - 1)) == EntriesById(es) - {es[|es| - 1].id}
  {
    assert Remove(es, |es| - 1) == es[..|es| - 1];
    LastIsNew(es);
    PutThenRemove(EntriesById(es[..|es| - 1]), es[|es| - 1].id, es[|es| - 1]);
  }

  lemma LastIsNew(es: seq<Entry>)
    requires UniqueEntries(es) && es != []
    ensures es[|es| - 1].id !in EntriesById(es[..|es| - 1])
  {
    var init := es[..|es| - 1];
    TableKeys(init);
    assert forall i :: 0 <= i < |init| ==> init[i].id != es[|es| - 1].id;
  }

  lemma PutThenRemove(m: map<Id, Entry>, id: Id, e: Entry)
    requires id !in m
    ensures m[id := e] - {id} == m
  {
  }

  lemma RemoveInside(es: seq<Entry>, k: nat)
    requires UniqueEntries(es) && k < |es| - 1
    requires var init := es[..|es| - 1]; EntriesById(Remove(init, k)) == EntriesById(init) - {init[k].id}
    ensures EntriesById(Remove(es, k)) == EntriesById(es) - {es[k].id}
  {
    var n := |es| - 1;
    assert es[k].id != es[n].id;
    RemoveBeforeLast(es, k);
    RemoveThenPut(EntriesById(es[..n]), es[k].id, es[n].id, es[n]);
  }

  lemma RemoveThenPut(m: map<Id, Entry>, gone: Id, id: Id, e: Entry)
    requires gone != id
    ensures (m - {gone})[id := e] == m[id := e] - {gone}
  {
  }

  lemma RemoveBeforeLast(es: seq<Entry>, k: nat)
    requires k < |es| - 1
    ensures var r := Remove(es, k);
            r != [] && r[|r| - 1] == es[|es| - 1] && r[..|r| - 1] == Remove(es[..|es| - 1], k)
  {
  }

  lemma RemoveUnique(es: seq<Entry>, k: nat)
    requires UniqueEntries(es) && k < |es|
    ensures UniqueEntries(Remove(es, k))
  {
    var r := Remove(es, k);
    forall a, b | 0 <= a < b < |r| ensures r[a].id != r[b].id {
      var i, j := if a < k then a else a + 1, if b < k then b else b + 1;
      assert r[a] == es[i] && r[b] == es[j];
    }
  }

  lemma InsertAt(es: seq<Entry>, i: nat, e: Entry, a: nat)
    requires i <= |es| && a <= |es|
    ensures Insert(es, i, e)[a] == if a < i then es[a] else if a == i then e else es[a - 1]
  {
  }

  lemma InsertKeepsUnique(es: seq<Entry>, i: nat, e: Entry)
    requires UniqueEntries(es) && i <= |es| && e.id !in EntriesById(es)
    ensures UniqueEntries(Insert(es, i, e))
  {
    var r := Insert(es, i, e);
    TableKeys(es);
    assert forall k :: 0 <= k < |es| ==> es[k].id != e.id;
    forall a, b | 0 <= a < b < |r| ensures r[a].id != r[b].id {
      InsertAt(es, i, e, a);
      InsertAt(es, i, e, b);
    }
  }

  lemma RemoveValid(es: seq<Entry>, k: nat)
    requires ValidEntries(es) && k < |es|
    ensures ValidEntries(Remove(es, k))
  {
    RemoveUnique(es, k);
    var r := Remove(es, k);
    assert forall x :: x in r ==> x in es;
  }

  lemma {:induction false} InsertTable(es: seq<Entry>, i: nat, e: Entry)
    requires UniqueEntries(es) && i <= |es| && e.id !in EntriesById(es)
    ensures EntriesById(Insert(es, i, e)) == EntriesById(es)[e.id := e]
  {
    var r, n := Insert(es, i, e), |es|;
    if i < n {
      var init := es[..n - 1];
      assert r[..n] == Insert(init, i, e) && r[n] == es[n - 1];
      InsertTable(init, i, e);
      assert es[n - 1].id in EntriesById(es);
    } else {
      assert r[..n] == es && r[n] == e;
    }
  }

  lemma InsertValid(es: seq<Entry>, i: nat, e: Entry)
    requires ValidEntries(es) && i <= |es| && e.id !in EntriesById(es)
    requires !IsBlank(e.id) && GoodBody(e.body)
    ensures ValidEntries(Insert(es, i, e))
  {
    InsertKeepsUnique(es, i, e);
    var r := Insert(es, i, e);
    assert forall x :: x in r ==> x == e || x in es;
  }

  // ---- Appending ----

  lemma AddEffect(s: Section, e: Entry)
    requires s.EntrySection? && ValidSection(s) && e.id !in Known(s)
    requires !IsBlank(e.id) && GoodBody(e.body)
    ensures var t := s.(entries := s.entries + [e]);
            && ValidSection(t)
            && Known(t) == Known(s)[e.id := e]
            && Ids(t) == Ids(s) + [e.id]
  {
    var r := s.entries + [e];
    assert Insert(s.entries, |s.entries|, e) == r;
    InsertTable(s.entries, |s.entries|, e);
    InsertValid(s.entries, |s.entries|, e);
    assert EntryIdSeq(r) == EntryIdSeq(s.entries) + [e.id];
  }

  // ---- Replacing one entry ----

  lemma TouchEffect(s: Section, id: Id, e: Entry)
    requires ValidSection(s) && HasEntry(s, id) && e.id == id && !IsBlank(id) && GoodBody(e.body)
    ensures var t := s.(entries := s.entries[FindEntry(s.entries, id) := e]);
            && ValidSection(t)
            && Known(t) == Known(s)[id := e]
            && Ids(t) == Ids(s)
  {
    var k := FindEntry(s.entries, id);
    TouchTable(s.entries, k, e);
    TouchValid(s.entries, k, e);
    assert EntryIdSeq(s.entries[k := e]) == EntryIdSeq(s.entries);
  }

  lemma TouchValid(es: seq<Entry>, k: nat, e: Entry)
    requires ValidEntries(es) && k < |es| && e.id == es[k].id && !IsBlank(e.id) && GoodBody(e.body)
    ensures ValidEntries(es[k := e])
  {
    var r := es[k := e];
    forall i, j | 0 <= i < j < |r| ensures r[i].id != r[j].id {
      assert es[i].id != es[j].id;
    }
    forall x | x in r ensures x == e || x in es {
    }
  }

  // ---- Removing one entry ----

  lemma {:induction false} WithoutAt(es: seq<Entry>, k: nat)
    requires UniqueEntries(es) && k < |es|
    ensures Without(es, es[k].id) == Remove(es, k)
  {
    var rest, id := es[1..], es[k].id;
    if k == 0 {
      assert forall j :: 0 <= j < |rest| ==> rest[j].id != id;
      WithoutAbsent(rest, id);
      assert Remove(es, 0) == rest;
    } else {
      assert es[0].id != id;
      WithoutAt(rest, k - 1);
      assert Remove(es, k) == [es[0]] + Remove(rest, k - 1);
    }
  }

  lemma DropEffect(s: Section, id: Id)
    requires ValidSection(s) && HasEntry(s, id)
    ensures ValidSection(DropFrom(s, id))
    ensures Known(DropFrom(s, id)) == Known(s) - {id}
    ensures DropFrom(s, id) == s.(entries := Remove(s.entries, FindEntry(s.entries, id)))
  {
    var k := FindEntry(s.entries, id);
    WithoutAt(s.entries, k);
    RemoveTable(s.entries, k);
    RemoveValid(s.entries, k);
  }

  lemma DropAgrees(a: seq<Id>, k: nat, wanted: seq<Id>)
    requires k < |a| && a[k] !in wanted
    ensures Agreeing(Remove(a, k), wanted) >= Agreeing(a, wanted)
  {
    var n := Agreeing(a, wanted);
    assert Remove(a, k)[..n] == a[..n];
    AgreeingAtLeast(Remove(a, k), wanted, n);
  }

  // ---- Moving one entry ----

  lemma ShiftEntries(es: seq<Entry>, k: nat, index: nat)
    requires ValidEntries(es) && k < |es| && index < |es|
    ensures var r := Insert(Remove(es, k), index, es[k]);
            ValidEntries(r) && EntriesById(r) == EntriesById(es)
  {
    var e, shorter := es[k], Remove(es, k);
    RemoveTable(es, k);
    RemoveValid(es, k);
    assert e in es;
    InsertValid(shorter, index, e);
    TakenAndPutBack(es, k, index);
  }

  lemma TakenAndPutBack(es: seq<Entry>, k: nat, index: nat)
    requires UniqueEntries(es) && k < |es| && index < |es|
    ensures EntriesById(Insert(Remove(es, k), index, es[k])) == EntriesById(es)
  {
    RemoveTable(es, k);
    InsertTable(Remove(es, k), index, es[k]);
    KeyAt(es, k);
    PutBack(EntriesById(es), es[k].id);
  }

  lemma KeyAt(es: seq<Entry>, k: nat)
    requires UniqueEntries(es) && k < |es|
    ensures es[k].id in EntriesById(es) && EntriesById(es)[es[k].id] == es[k]
  {
    TableKeys(es);
  }

  lemma PutBack(m: map<Id, Entry>, id: Id)
    requires id in m
    ensures (m - {id})[id := m[id]] == m
  {
  }

  lemma ShiftEffect(s: Section, id: Id, index: nat)
    requires ValidSection(s) && HasEntry(s, id) && index < |s.entries|
    ensures ValidSection(Shifted(s, id, index))
    ensures Known(Shifted(s, id, index)) == Known(s)
    ensures var k := FindEntry(s.entries, id);
            Ids(Shifted(s, id, index)) == Insert(Remove(Ids(s), k), index, Ids(s)[k])
  {
    var k := FindEntry(s.entries, id);
    ShiftEntries(s.entries, k, index);
    ShiftIds(s.entries, k, index);
  }

  lemma ShiftIds(es: seq<Entry>, k: nat, index: nat)
    requires k < |es| && index < |es|
    ensures EntryIdSeq(Insert(Remove(es, k), index, es[k])) ==
            Insert(Remove(EntryIdSeq(es), k), index, EntryIdSeq(es)[k])
  {
    assert EntryIdSeq(Remove(es, k)) == Remove(EntryIdSeq(es), k);
  }
}
