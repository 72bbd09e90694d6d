/**
 * The page shell's section tracker: an intersection observer reports
 * batches of entries for the page's `section[id]` elements, and the callback
 * walks each batch in order, making every intersecting entry's id the
 * active section. The navigation dots highlight the dot of the active
 * section.
 *
 * The observer's geometry (threshold and margins) is not modelled: a batch is
 * simply the sequence of entries it delivers.
 */
module IndexPage {

  /** One observer entry: the id of the observed element and whether it now intersects. */
  datatype Entry = Entry(targetId: string, isIntersecting: bool)

  /** The sections that get a navigation dot, in order. */
  const Sections: seq<string> := ["hero", "projects", "about", "skills", "awards", "contact"]

  /**
   * The ids of the `section[id]` elements the observer watches, in document
   * order: the page's own six wrappers, plus the project section's inner
   * element, which carries the id `projects` too.
   */
  const ObservedIds: seq<string> := ["hero", "projects", "projects", "about", "skills", "awards", "contact"]

  /**
   * The active section after one batch: the id of the last intersecting
   * entry, or `current` if no entry intersects.
   */
  function AfterBatch(current: string, entries: seq<Entry>): (r: string)
    ensures (forall k :: 0 <= k < |entries| ==> !entries[k].isIntersecting) ==> r == current
    ensures (exists k :: 0 <= k < |entries| && entries[k].isIntersecting) ==>
      exists j :: 0 <= j < |entries| && entries[j].isIntersecting && r == entries[j].targetId &&
        forall k :: j < k < |entries| ==> !entries[k].isIntersecting
    decreases |entries|
  {
    if entries == [] then current
    else
      var last := entries[|entries| - 1];
      if last.isIntersecting then last.targetId
      else
        var r := AfterBatch(current, entries[..|entries| - 1]);
        assert forall k :: 0 <= k < |entries| - 1 ==> entries[..|entries| - 1][k] == entries[k];
        r
  }

  /** The active section after a sequence of batches, one callback each. */
  function AfterBatches(current: string, batches: seq<seq<Entry>>): string
    decreases |batches|
  {
    if batches == [] then current
    else AfterBatches(AfterBatch(current, batches[0]), batches[1..])
  }

  /** Every entry of every batch is about an id in `ids`. */
  ghost predicate AllAbout(batches: seq<seq<Entry>>, ids: seq<string>) {
    forall b, k :: 0 <= b < |batches| && 0 <= k < |batches[b]| ==> batches[b][k].targetId in ids
  }

  /** A batch whose ids all belong to `Sections` keeps the active section inside `Sections`. */
  lemma BatchStaysInSections(current: string, entries: seq<Entry>)
    requires current in Sections
    requires forall k :: 0 <= k < |entries| ==> entries[k].targetId in Sections
    ensures AfterBatch(current, entries) in Sections
  {
  }

  /**
   * If every observed id names a section, the active section stays one of
   * `Sections` across any sequence of callbacks.
   */
  lemma {:induction false} StaysInSections(current: string, batches: seq<seq<Entry>>)
    requires current in Sections
    requires AllAbout(batches, Sections)
    ensures AfterBatches(current, batches) in Sections
    decreases |batches|
  {
    if batches != [] {
      assert forall k :: 0 <= k < |batches[0]| ==> batches[0][k].targetId in Sections;
      BatchStaysInSections(current, batches[0]);
      assert AllAbout(batches[1..], Sections) by {
        forall b, k | 0 <= b < |batches[1..]| && 0 <= k < |batches[1..][b]|
          ensures batches[1..][b][k].targetId in Sections
        {
          assert batches[1..][b] == batches[b + 1];
        }
      }
      StaysInSections(AfterBatch(current, batches[0]), batches[1..]);
    }
  }

  /** The page observes only ids that have a navigation dot. */
  lemma ObservedIdsHaveDots()
    ensures forall k :: 0 <= k < |ObservedIds| ==> ObservedIds[k] in Sections
  {
  }

  /** An entry that stops intersecting never changes the active section. */
  lemma {:induction false} ExitsNeverClear(current: string, entries: seq<Entry>, id: string)
    ensures AfterBatch(current, entries + [Entry(id, false)]) == AfterBatch(current, entries)
  {
    assert (entries + [Entry(id, false)])[..|entries|] == entries;
  }

  /** "A enters, B enters, A exits" leaves B active, whether in one callback or in three. */
  lemma EnterEnterExit(current: string, a: string, b: string)
    ensures AfterBatch(current, [Entry(a, true), Entry(b, true), Entry(a, false)]) == b
    ensures AfterBatches(current, [[Entry(a, true)], [Entry(b, true)], [Entry(a, false)]]) == b
  {
    ExitsNeverClear(current, [Entry(a, true), Entry(b, true)], a);
    assert [Entry(a, true), Entry(b, true), Entry(a, false)] == [Entry(a, true), Entry(b, true)] + [Entry(a, false)];
    var bs := [[Entry(a, true)], [Entry(b, true)], [Entry(a, false)]];
    assert AfterBatch(current, bs[0]) == a;
    assert AfterBatch(a, bs[1]) == b;
    assert AfterBatch(b, bs[2]) == b;
    assert AfterBatches(current, bs) == AfterBatches(a, bs[1..]);
    assert AfterBatches(a, bs[1..]) == AfterBatches(b, bs[2..]);
    assert AfterBatches(b, bs[2..]) == AfterBatches(b, bs[3..]);
    assert bs[3..] == [];
  }

  /** The navigation dot of `section` is highlighted. */
  predicate DotHighlighted(activeSection: string, section: string) {
    activeSection == section
  }

  /**
   * Since the section ids are distinct, at most one dot is highlighted, and
   * exactly one when the active section is one of them.
   */
  lemma AtMostOneDot(activeSection: string)
    ensures forall i, j ::
      (0 <= i < |Sections| && 0 <= j < |Sections| &&
       DotHighlighted(activeSection, Sections[i]) && DotHighlighted(activeSection, Sections[j])) ==> i == j
    ensures activeSection in Sections <==> exists i :: 0 <= i < |Sections| && DotHighlighted(activeSection, Sections[i])
  {
    assert forall i, j :: 0 <= i < j < |Sections| ==> Sections[i] != Sections[j];
  }

  class Page {
    var activeSection: string

    /** The page mounts with the hero section active. */
    constructor ()
      ensures activeSection == "hero" && activeSection in Sections
    {
      activeSection := "hero";
    }

    /** The observer callback: walks the batch and lets each intersecting entry overwrite the active section. */
    method OnIntersection(entries: seq<Entry>)
      modifies this
      ensures activeSection == AfterBatch(old(activeSection), entries)
      ensures old(activeSection) in Sections && (forall k :: 0 <= k < |entries| ==> entries[k].targetId in ObservedIds) ==>
        activeSection in Sections
    {
      var i := 0;
      while i < |entries|
        invariant 0 <= i <= |entries|
        invariant activeSection == AfterBatch(old(activeSection), entries[..i])
      {
        var entry := entries[i];
        if entry.isIntersecting {
          activeSection := entry.targetId;
        }
        assert entries[..i + 1][..i] == entries[..i];
        i := i + 1;
      }
      assert entries[..|entries|] == entries;
      if old(activeSection) in Sections && (forall k :: 0 <= k < |entries| ==> entries[k].targetId in ObservedIds) {
        ObservedIdsHaveDots();
        BatchStaysInSections(old(activeSection), entries);
      }
    }
  }
}
