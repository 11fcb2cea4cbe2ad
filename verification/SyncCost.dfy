/** How far one section is from its desired form, and how each command brings it closer. */
module SyncCost {
  import opened Contracts
  import opened Strings
  import opened Documents
  import opened Domain
  import opened DocumentBridge
  import opened SectionEdits
  import opened EntryEdits

  // ---- First commands and sums over lists ----

  lemma {:induction false} FirstSomeAt<T>(f: T -> Option<DomainCommand>, s: seq<T>) returns (k: nat)
    requires FirstSome(f, s).Some?
    ensures k < |s| && f(s[k]) == FirstSome(f, s)
    ensures forall i :: 0 <= i < k ==> f(s[i]).None?
  {
    if f(s[0]).Some? {
      k := 0;
    } else {
      var r := FirstSomeAt(f, s[1..]);
      k := r + 1;
    }
  }

  lemma {:induction false} FirstSomeNone<T>(f: T -> Option<DomainCommand>, s: seq<T>)
    requires FirstSome(f, s).None?
    ensures forall i :: 0 <= i < |s| ==> f(s[i]).None?
  {
    if s != [] {
      FirstSomeNone(f, s[1..]);
    }
  }

  function Sum<T>(f: T -> nat, s: seq<T>): nat {
    if s == [] then 0 else f(s[0]) + Sum(f, s[1..])
  }

  lemma {:induction false} SumAtMost<T>(f: T -> nat, g: T -> nat, s: seq<T>)
    requires forall i :: 0 <= i < |s| ==> f(s[i]) <= g(s[i])
    ensures Sum(f, s) <= Sum(g, s)
  {
    if s != [] {
      SumAtMost(f, g, s[1..]);
    }
  }

  lemma {:induction false} SumLess<T>(f: T -> nat, g: T -> nat, s: seq<T>, k: nat)
    requires forall i :: 0 <= i < |s| ==> f(s[i]) <= g(s[i])
    requires k < |s| && f(s[k]) < g(s[k])
    ensures Sum(f, s) < Sum(g, s)
  {
    if k == 0 {
      SumAtMost(f, g, s[1..]);
    } else {
      SumLess(f, g, s[1..], k - 1);
    }
  }

  // ---- Text fields a patch can bring about ----

  /** A difference the entry patch can remove: the wanted text exists, and is not an empty optional one. */
  predicate FieldsReachable(current: map<EntryField, string>, desired: map<EntryField, string>) {
    forall f: EntryField ::
      SameText(current, desired, f) || (f in desired && !(f in {College, Mode} && desired[f] == ""))
  }

  predicate BasicReachable(current: map<BasicText, string>, desired: map<BasicText, string>) {
    forall f: BasicText ::
      SameText(current, desired, f)
      || if f == AvatarAssetId then f !in desired || desired[f] != "" else f in desired
  }

  /** The patch hits its target exactly when every difference is one it can remove. */
  lemma EntryPatchIsExact(e: Entry, desired: map<EntryField, string>)
    ensures PatchEntry(e, ChangedTexts(e.texts, desired)).texts == desired <==> FieldsReachable(e.texts, desired)
    ensures FieldsReachable(PatchEntry(e, ChangedTexts(e.texts, desired)).texts, desired) ==> FieldsReachable(e.texts, desired)
  {
    var r := PatchEntry(e, ChangedTexts(e.texts, desired)).texts;
    if FieldsReachable(e.texts, desired) {
      forall f: EntryField ensures SameText(r, desired, f) {
        assert SameText(e.texts, desired, f) || f in desired;
      }
      SameEverywhere(r, desired);
    }
    if r == desired || FieldsReachable(r, desired) {
      forall f: EntryField
        ensures SameText(e.texts, desired, f) || (f in desired && !(f in {College, Mode} && desired[f] == ""))
      {
        assert r == desired ==> SameText(r, desired, f);
      }
    }
  }

  lemma BasicPatchIsExact(b: BasicInfo, d: BasicInfo)
    requires b != d
    ensures PatchBasic(b, BasicPatchFrom(b, d).value) == d <==> BasicReachable(b.texts, d.texts)
    ensures BasicReachable(PatchBasic(b, BasicPatchFrom(b, d).value).texts, d.texts) ==> BasicReachable(b.texts, d.texts)
  {
    var r := PatchBasic(b, BasicPatchFrom(b, d).value).texts;
    if BasicReachable(b.texts, d.texts) {
      forall f: BasicText ensures SameText(r, d.texts, f) {
        assert SameText(b.texts, d.texts, f) || f == AvatarAssetId || f in d.texts;
      }
      SameEverywhere(r, d.texts);
    }
    if r == d.texts || BasicReachable(r, d.texts) {
      forall f: BasicText
        ensures SameText(b.texts, d.texts, f)
             || if f == AvatarAssetId then f !in d.texts || d.texts[f] != "" else f in d.texts
      {
        assert r == d.texts ==> SameText(r, d.texts, f);
      }
    }
  }

  // ---- Distance of one section ----

  function Bit(b: bool): nat { if b then 1 else 0 }

  function EntryCost(known: map<Id, Entry>, e: Entry): nat {
    if e.id !in known then 1
    else Bit(known[e.id].texts != e.texts) + Bit(known[e.id].body != e.body)
  }

  function EntryCostOf(known: map<Id, Entry>): Entry -> nat {
    (e: Entry) => EntryCost(known, e)
  }

  function ContentCost(b: Section, d: Section): nat {
    if d.SummarySection? then Bit(!(b.SummarySection? && b.body == d.body))
    else Sum(EntryCostOf(Known(b)), d.entries) + |Known(b).Keys - EntryIds(d)|
  }

  function OrderCost(b: Section, d: Section): nat {
    |EntriesOf(d)| - Agreeing(Ids(b), Ids(d))
  }

  /** An upper bound on the number of commands this section still needs. */
  function SectionCost(b: Section, d: Section): nat {
    ContentCost(b, d) + Bit(b.visible != d.visible) + Bit(b.title != d.title) + OrderCost(b, d)
  }

  predicate SameKind(a: Section, b: Section) {
    if a.EntrySection? then b.EntrySection? && a.kind == b.kind
    else b.SummarySection? && a.kindName == b.kindName
  }

  /** Every entry the two sections share differs only in ways a patch can remove. */
  predicate Reachable(b: Section, d: Section) {
    forall e :: e in EntriesOf(d) && e.id in Known(b) ==> FieldsReachable(Known(b)[e.id].texts, e.texts)
  }

  predicate SameObstacles(b: Section, t: Section, d: Section) {
    Reachable(b, d) <==> Reachable(t, d)
  }

  /** A step on one section: it keeps identity and validity, gets closer, and neither adds nor removes obstacles. */
  predicate GoodStep(b: Section, t: Section, d: Section) {
    && t.id == b.id
    && SameKind(t, b)
    && ValidSection(t)
    && SameObstacles(b, t, d)
    && (SameKind(b, d) && Reachable(b, d) ==> SectionCost(t, d) < SectionCost(b, d))
  }

  lemma MakeGoodStep(b: Section, t: Section, d: Section)
    requires t.id == b.id && SameKind(t, b) && ValidSection(t)
    requires SameObstacles(b, t, d)
    requires SameKind(b, d) && Reachable(b, d) ==> SectionCost(t, d) < SectionCost(b, d)
    ensures GoodStep(b, t, d)
  {
  }

  /** How the entry IDs of the section change under the command. */
  predicate KeysStep(b: Section, t: Section, d: Section, c: DomainCommand) {
    if c.AddEntry? then
      Known(t).Keys == Known(b).Keys + {c.entry.id} && c.entry.id in EntryIds(d)
    else if c.DeleteEntry? then
      && Known(t).Keys == Known(b).Keys - {c.entryId}
      && c.entryId in Known(b) && c.entryId !in EntryIds(d)
      && EntryIds(d) <= Known(b).Keys
    else Known(t).Keys == Known(b).Keys
  }

  // ---- Local progress, command by command ----

  lemma EntryIdsAt(d: Section, k: nat)
    requires k < |EntriesOf(d)|
    ensures EntriesOf(d)[k].id in EntryIds(d)
  {
    assert EntriesOf(d)[k] in EntriesOf(d);
  }

  /** The tables agree on every ID except this one. */
  ghost predicate AgreeExcept(m: map<Id, Entry>, n: map<Id, Entry>, id: Id) {
    forall x :: x != id ==> (x in m <==> x in n) && (x in m ==> x in n && m[x] == n[x])
  }

  lemma AgreeUpdate(m: map<Id, Entry>, id: Id, e: Entry)
    ensures AgreeExcept(m[id := e], m, id)
  {
  }

  lemma UpsertDrops(m: map<Id, Entry>, n: map<Id, Entry>, es: seq<Entry>, k: nat)
    requires UniqueEntries(es) && k < |es|
    requires AgreeExcept(m, n, es[k].id)
    requires EntryCost(m, es[k]) < EntryCost(n, es[k])
    ensures Sum(EntryCostOf(m), es) < Sum(EntryCostOf(n), es)
  {
    var f, g := EntryCostOf(m), EntryCostOf(n);
    forall i | 0 <= i < |es| ensures f(es[i]) <= g(es[i]) {
      if i != k {
        assert es[i].id != es[k].id;
      }
    }
    SumLess(f, g, es, k);
  }

  /** One desired entry got closer and nothing else moved away. */
  lemma ContentDrops(b: Section, t: Section, d: Section, k: nat)
    requires d.EntrySection? && UniqueEntries(d.entries) && k < |d.entries|
    requires t.visible == b.visible && t.title == b.title
    requires AgreeExcept(Known(t), Known(b), d.entries[k].id)
    requires EntryCost(Known(t), d.entries[k]) < EntryCost(Known(b), d.entries[k])
    requires Agreeing(Ids(t), Ids(d)) >= Agreeing(Ids(b), Ids(d))
    ensures SectionCost(t, d) < SectionCost(b, d)
  {
    UpsertDrops(Known(t), Known(b), d.entries, k);
    EntryIdsAt(d, k);
    SurplusSame(Known(t), Known(b), EntryIds(d), d.entries[k].id);
  }

  lemma SurplusSame(m: map<Id, Entry>, n: map<Id, Entry>, keep: set<Id>, id: Id)
    requires AgreeExcept(m, n, id) && id in keep
    ensures m.Keys - keep == n.Keys - keep
  {
    forall x ensures x in m.Keys - keep <==> x in n.Keys - keep {
    }
  }

  /** Obstacles depend only on the shared entry that changed. */
  lemma ReachDepends(b: Section, t: Section, d: Section, k: nat)
    requires UniqueEntries(EntriesOf(d)) && k < |EntriesOf(d)|
    requires var e := EntriesOf(d)[k];
             && AgreeExcept(Known(t), Known(b), e.id)
             && ((e.id in Known(t) ==> FieldsReachable(Known(t)[e.id].texts, e.texts)) <==>
                 (e.id in Known(b) ==> FieldsReachable(Known(b)[e.id].texts, e.texts)))
    ensures SameObstacles(b, t, d)
  {
    var e := EntriesOf(d)[k];
    assert e in EntriesOf(d);
    forall x | x in EntriesOf(d) && x != e ensures x.id != e.id {
      var i :| 0 <= i < |EntriesOf(d)| && EntriesOf(d)[i] == x;
    }
  }

  lemma SelfReachable(texts: map<EntryField, string>)
    ensures FieldsReachable(texts, texts)
  {
  }

  lemma AddReach(b: Section, t: Section, d: Section, k: nat)
    requires UniqueEntries(EntriesOf(d)) && k < |EntriesOf(d)| && EntriesOf(d)[k].id !in Known(b)
    requires Known(t) == Known(b)[EntriesOf(d)[k].id := EntriesOf(d)[k]]
    ensures SameObstacles(b, t, d)
  {
    var e := EntriesOf(d)[k];
    SelfReachable(e.texts);
    AgreeUpdate(Known(b), e.id, e);
    ReachDepends(b, t, d, k);
  }

  lemma AddCost(b: Section, t: Section, d: Section, k: nat)
    requires d.EntrySection? && UniqueEntries(d.entries) && k < |d.entries| && d.entries[k].id !in Known(b)
    requires t.visible == b.visible && t.title == b.title
    requires Known(t) == Known(b)[d.entries[k].id := d.entries[k]]
    requires Ids(t) == Ids(b) + [d.entries[k].id]
    ensures SectionCost(t, d) < SectionCost(b, d)
  {
    var e := d.entries[k];
    AgreeUpdate(Known(b), e.id, e);
    AppendAgrees(Ids(b), e.id, Ids(d));
    ContentDrops(b, t, d, k);
  }

  lemma AddStep(b: Section, d: Section, k: nat)
    requires ValidSection(b) && ValidSection(d) && b.EntrySection? && d.EntrySection?
    requires k < |d.entries| && d.entries[k].id !in Known(b)
    ensures var t := b.(entries := b.entries + [d.entries[k]]);
            GoodStep(b, t, d) && Known(t).Keys == Known(b).Keys + {d.entries[k].id}
  {
    var e := d.entries[k];
    var t := b.(entries := b.entries + [e]);
    AddValid(b, d, k);
    AddReach(b, t, d, k);
    AddCost(b, t, d, k);
    MakeGoodStep(b, t, d);
  }

  lemma AddValid(b: Section, d: Section, k: nat)
    requires ValidSection(b) && ValidSection(d) && b.EntrySection? && d.EntrySection?
    requires k < |d.entries| && d.entries[k].id !in Known(b)
    ensures var e := d.entries[k];
            var t := b.(entries := b.entries + [e]);
            ValidSection(t) && Known(t) == Known(b)[e.id := e] && Ids(t) == Ids(b) + [e.id]
  {
    assert d.entries[k] in d.entries;
    AddEffect(b, d.entries[k]);
  }

  /** The replacement faces the same obstacles, and without obstacles it is closer to the desired entry. */
  predicate Closer(known: map<Id, Entry>, r: Entry, e: Entry)
    requires r.id in known
  {
    && (FieldsReachable(r.texts, e.texts) <==> FieldsReachable(known[r.id].texts, e.texts))
    && (FieldsReachable(known[r.id].texts, e.texts) ==> EntryCost(known[r.id := r], e) < EntryCost(known, e))
  }

  lemma TouchReach(b: Section, t: Section, d: Section, k: nat, r: Entry)
    requires UniqueEntries(EntriesOf(d)) && k < |EntriesOf(d)| && r.id == EntriesOf(d)[k].id && r.id in Known(b)
    requires Known(t) == Known(b)[r.id := r]
    requires Closer(Known(b), r, EntriesOf(d)[k])
    ensures SameObstacles(b, t, d)
  {
    AgreeUpdate(Known(b), r.id, r);
    ReachDepends(b, t, d, k);
  }

  lemma TouchCost(b: Section, t: Section, d: Section, k: nat, r: Entry)
    requires d.EntrySection? && UniqueEntries(d.entries) && k < |d.entries| && r.id == d.entries[k].id
    requires t.visible == b.visible && t.title == b.title
    requires r.id in Known(b) && Closer(Known(b), r, d.entries[k])
    requires Known(t) == Known(b)[r.id := r] && Ids(t) == Ids(b)
    ensures Reachable(b, d) ==> SectionCost(t, d) < SectionCost(b, d)
  {
    if !Reachable(b, d) {
      return;
    }
    assert d.entries[k] in d.entries;
    AgreeUpdate(Known(b), r.id, r);
    ContentDrops(b, t, d, k);
  }

  /** Replacing one shared entry by one that is closer to the desired entry. */
  lemma TouchStep(b: Section, d: Section, k: nat, r: Entry)
    requires ValidSection(b) && ValidSection(d) && b.EntrySection? && d.EntrySection?
    requires k < |d.entries| && HasEntry(b, r.id) && r.id in Known(b)
    requires r.id == d.entries[k].id && GoodBody(r.body)
    requires Closer(Known(b), r, d.entries[k])
    ensures var t := b.(entries := b.entries[FindEntry(b.entries, r.id) := r]);
            GoodStep(b, t, d) && Known(t).Keys == Known(b).Keys
  {
    var t := b.(entries := b.entries[FindEntry(b.entries, r.id) := r]);
    TouchValid(b, d, k, r);
    TouchReach(b, t, d, k, r);
    TouchCost(b, t, d, k, r);
    MakeGoodStep(b, t, d);
  }

  lemma TouchValid(b: Section, d: Section, k: nat, r: Entry)
    requires ValidSection(b) && ValidSection(d) && b.EntrySection? && d.EntrySection?
    requires k < |d.entries| && HasEntry(b, r.id)
    requires r.id == d.entries[k].id && GoodBody(r.body)
    ensures var t := b.(entries := b.entries[FindEntry(b.entries, r.id) := r]);
            ValidSection(t) && Known(t) == Known(b)[r.id := r] && Ids(t) == Ids(b)
  {
    assert d.entries[k] in d.entries;
    TouchEffect(b, r.id, r);
  }

  lemma SurplusShrinks(n: map<Id, Entry>, keep: set<Id>, id: Id)
    requires id in n && id !in keep
    ensures |(n - {id}).Keys - keep| < |n.Keys - keep|
  {
    assert (n - {id}).Keys - keep == (n.Keys - keep) - {id};
  }

  lemma UpsertUnmoved(n: map<Id, Entry>, es: seq<Entry>, id: Id)
    requires forall i :: 0 <= i < |es| ==> es[i].id != id
    ensures Sum(EntryCostOf(n - {id}), es) <= Sum(EntryCostOf(n), es)
  {
    SumAtMost(EntryCostOf(n - {id}), EntryCostOf(n), es);
  }

  lemma DeleteCost(b: Section, t: Section, d: Section, id: Id)
    requires d.EntrySection? && id in Known(b) && id !in EntryIds(d)
    requires t.visible == b.visible && t.title == b.title
    requires Known(t) == Known(b) - {id}
    requires Agreeing(Ids(t), Ids(d)) >= Agreeing(Ids(b), Ids(d))
    ensures SectionCost(t, d) < SectionCost(b, d)
  {
    NotAmong(d, id);
    UpsertUnmoved(Known(b), d.entries, id);
    SurplusShrinks(Known(b), EntryIds(d), id);
  }

  lemma NotAmong(d: Section, id: Id)
    requires id !in EntryIds(d)
    ensures forall i :: 0 <= i < |EntriesOf(d)| ==> EntriesOf(d)[i].id != id
    ensures id !in Ids(d)
  {
    forall i | 0 <= i < |EntriesOf(d)| ensures EntriesOf(d)[i].id != id {
      EntryIdsAt(d, i);
    }
  }

  lemma DropIds(b: Section, id: Id, wanted: seq<Id>)
    requires HasEntry(b, id) && id !in wanted
    ensures Agreeing(Ids(b.(entries := Remove(b.entries, FindEntry(b.entries, id)))), wanted) >= Agreeing(Ids(b), wanted)
  {
    var k := FindEntry(b.entries, id);
    assert EntryIdSeq(Remove(b.entries, k)) == Remove(Ids(b), k);
    DropAgrees(Ids(b), k, wanted);
  }

  lemma SameReach(b: Section, t: Section, d: Section)
    requires forall i :: 0 <= i < |EntriesOf(d)| ==>
               var x := EntriesOf(d)[i].id;
               (x in Known(t) <==> x in Known(b)) && (x in Known(b) ==> x in Known(t) && Known(t)[x] == Known(b)[x])
    ensures SameObstacles(b, t, d)
  {
  }

  lemma DeleteStep(b: Section, d: Section, id: Id)
    requires ValidSection(b) && ValidSection(d) && d.EntrySection?
    requires HasEntry(b, id) && id in Known(b) && id !in EntryIds(d)
    ensures GoodStep(b, DropFrom(b, id), d)
    ensures Known(DropFrom(b, id)).Keys == Known(b).Keys - {id}
  {
    DropEffect(b, id);
    NotAmong(d, id);
    DropIds(b, id, Ids(d));
    DeleteCost(b, DropFrom(b, id), d, id);
    SameReach(b, DropFrom(b, id), d);
  }

  lemma ShiftCost(b: Section, t: Section, d: Section)
    requires t.visible == b.visible && t.title == b.title && d.EntrySection?
    requires Known(t) == Known(b)
    requires Agreeing(Ids(t), Ids(d)) > Agreeing(Ids(b), Ids(d))
    ensures SectionCost(t, d) < SectionCost(b, d)
  {
  }

  lemma ShiftStep(b: Section, d: Section, n: nat, id: Id)
    requires ValidSection(b) && ValidSection(d) && b.EntrySection? && d.EntrySection?
    requires n == Agreeing(Ids(b), Ids(d)) < |d.entries| && id == d.entries[n].id && HasEntry(b, id)
    ensures n < |b.entries|
    ensures GoodStep(b, Shifted(b, id, n), d)
    ensures Known(Shifted(b, id, n)) == Known(b)
  {
    var k := FindEntry(b.entries, id);
    UniqueIdSeq(d.entries);
    ShiftAgrees(Ids(b), k, Ids(d));
    ShiftEffect(b, id, n);
    ShiftCost(b, Shifted(b, id, n), d);
    SameReach(b, Shifted(b, id, n), d);
  }

  lemma UniqueIdSeq(es: seq<Entry>)
    requires UniqueEntries(es)
    ensures forall i, j :: 0 <= i < j < |es| ==> EntryIdSeq(es)[i] != EntryIdSeq(es)[j]
  {
  }
}
