/**
 * The rule by which the IntersectionObserver callback updates the active
 * section. The browser's geometry is abstracted away: a notification is the
 * batch of entries it delivers, each reduced to whether its section is
 * intersecting and the section's id.
 */
module SectionObserver {
  import opened Wrappers

  /** One observer entry: `entry.isIntersecting` and `entry.target.id`. */
  datatype Entry = Entry(isIntersecting: bool, id: string)

  /** `entry.isIntersecting && entry.target.id`: the empty id is falsy. */
  predicate Qualifies(e: Entry) {
    e.isIntersecting && e.id != ""
  }

  /** No entry of the batch qualifies. */
  predicate NoneQualifies(entries: seq<Entry>) {
    forall i | 0 <= i < |entries| :: !Qualifies(entries[i])
  }

  /** Entry `i` qualifies and no later entry of the batch does. */
  predicate IsLastQualifying(entries: seq<Entry>, i: int) {
    && 0 <= i < |entries| && Qualifies(entries[i])
    && forall j | i < j < |entries| :: !Qualifies(entries[j])
  }

  /** The id of the last qualifying entry of a batch, or `None` when no entry
      qualifies. */
  function LastQualifying(entries: seq<Entry>): (r: Option<string>)
    ensures r.None? <==> NoneQualifies(entries)
    ensures r.Some? ==> exists i :: IsLastQualifying(entries, i) && entries[i].id == r.value
  {
    if entries == [] then None
    else
      var n := |entries| - 1;
      if Qualifies(entries[n]) then
        assert IsLastQualifying(entries, n);
        Some(entries[n].id)
      else
        var prefix := entries[..n];
        var r := LastQualifying(prefix);
        PrefixFacts(entries);
        r
  }

  /** When the final entry does not qualify, the batch and its prefix without
      that entry agree on which entries qualify and which is last. */
  lemma PrefixFacts(entries: seq<Entry>)
    requires entries != [] && !Qualifies(entries[|entries| - 1])
    ensures NoneQualifies(entries) <==> NoneQualifies(entries[..|entries| - 1])
    ensures forall i :: IsLastQualifying(entries[..|entries| - 1], i) ==> IsLastQualifying(entries, i)
  {
    var n := |entries| - 1;
    assert forall i | 0 <= i < n :: entries[..n][i] == entries[i];
  }

  /** What `LastQualifying(entries).GetOr(active)` means for a batch: the
      active section is unchanged when no entry qualifies, is the id of the
      last qualifying entry otherwise, and so is always the old value or the
      id of a qualifying entry. */
  lemma BatchOutcome(active: string, entries: seq<Entry>)
    ensures var next := LastQualifying(entries).GetOr(active);
      && (NoneQualifies(entries) ==> next == active)
      && (forall i | IsLastQualifying(entries, i) :: next == entries[i].id)
      && (next == active || exists i | 0 <= i < |entries| :: Qualifies(entries[i]) && next == entries[i].id)
  {
    forall i | IsLastQualifying(entries, i)
      ensures LastQualifying(entries) == Some(entries[i].id)
    {
      LastQualifyingUnique(entries, i);
    }
  }

  /** The callback's `forEach`: each qualifying entry overwrites the active
      section in turn. */
  method ObserveEntries(active: string, entries: seq<Entry>) returns (next: string)
    ensures next == LastQualifying(entries).GetOr(active)
  {
    next := active;
    var i := 0;
    while i < |entries|
      invariant 0 <= i <= |entries|
      invariant next == LastQualifying(entries[..i]).GetOr(active)
    {
      var entry := entries[i];
      if entry.isIntersecting && entry.id != "" {
        next := entry.id;
      }
      assert entries[..i + 1][..i] == entries[..i];
      i := i + 1;
    }
    assert entries[..i] == entries;
  }

  /** Only the last qualifying entry can be the one `LastQualifying` names. */
  lemma LastQualifyingUnique(entries: seq<Entry>, i: nat)
    requires IsLastQualifying(entries, i)
    ensures LastQualifying(entries) == Some(entries[i].id)
  {
    var r := LastQualifying(entries);
    assert !NoneQualifies(entries);
    var k :| IsLastQualifying(entries, k) && entries[k].id == r.value;
    assert k == i;
  }

  /** A batch leaves the active section inside any set of ids that holds the
      old value and every qualifying entry's id. */
  lemma BatchStaysWithin(active: string, entries: seq<Entry>, ids: set<string>)
    requires active in ids
    requires forall i | 0 <= i < |entries| && Qualifies(entries[i]) :: entries[i].id in ids
    ensures LastQualifying(entries).GetOr(active) in ids
  {
    var r := LastQualifying(entries);
    if r.Some? {
      var k :| IsLastQualifying(entries, k) && entries[k].id == r.value;
    }
  }
}
