/** What an abandoned service looks like: exactly the checkpoints of that phase that pass the decoder. */
module EveningAbandoned {
  import opened Basics
  import opened EveningCheckpoint
  import opened EveningScript

  /** Rows before the active order are served, the others discarded after however many steps. */
  ghost predicate ThrownAway(d: Definition, c: Checkpoint) {
    && |c.orders| == |d.orders| && 0 <= c.activeOrderIndex <= |d.orders|
    && forall i :: 0 <= i < |d.orders| ==>
      if i < c.activeOrderIndex
      then c.orders[i] == OrderRow(
        d.orders[i].id, SERVED, |d.orders[i].steps|, Some(d.orders[i].plateFeedbackRef), Some(d.orders[i].serveFeedbackRef))
      else 0 <= c.orders[i].stepIndex <= |d.orders[i].steps| && c.orders[i] == OrderRow(d.orders[i].id, DISCARDED, c.orders[i].stepIndex, None, None)
  }

  /** The stock follows the rows, the flags are an authored prefix covering what was served, a presentation was served. */
  ghost predicate LeftBehind(d: Definition, c: Checkpoint) {
    && ThrownAway(d, c) && c.components == Conserved(d, c.orders)
    && 0 <= c.revision <= 9007199254740991 && 0 <= c.generation <= 9007199254740991 && 0 <= c.riceBeatIndex <= |d.riceBeats|
    && c.restorationChoice == None
    && (c.presentationChoice.Some? ==> c.presentationChoice.value in d.presentationChoices && c.activeOrderIndex > 0)
    && c.activeOrderIndex <= |c.storyFlags| <= |d.orders| && (forall k :: 0 <= k < |c.storyFlags| ==> c.storyFlags[k] == d.orders[k].storyFlagId)
    && (c.unlocks == [] || c.unlocks == [d.settlementUnlock])
  }

  lemma RowsThrown(d: Definition, c: Checkpoint)
    requires Authored(d) && Valid(d, c) && c.phase == ABANDONED
    ensures ThrownAway(d, c)
  {
    forall i | 0 <= i < |d.orders|
      ensures if i < c.activeOrderIndex
        then c.orders[i] == OrderRow(
          d.orders[i].id, SERVED, |d.orders[i].steps|, Some(d.orders[i].plateFeedbackRef), Some(d.orders[i].serveFeedbackRef))
        else 0 <= c.orders[i].stepIndex <= |d.orders[i].steps| && c.orders[i] == OrderRow(d.orders[i].id, DISCARDED, c.orders[i].stepIndex, None, None)
    {
      assert RowInvariant(d, c, i);
    }
    hide Conserved, ServedCount;
  }

  lemma AbandonedLeaves(d: Definition, c: Checkpoint)
    requires Authored(d) && Valid(d, c) && c.phase == ABANDONED
    ensures LeftBehind(d, c)
  {
    RowsThrown(d, c);
    UnlockShape(d, c.unlocks);
    FlagsCoverServed(d, c);
    assert forall k :: 0 <= k < |c.storyFlags| ==> c.storyFlags[k] == StoryFlags(d)[k];
    assert c.orders[0].state == SERVED || c.orders[0].state == DISCARDED;
    hide Conserved, ServedCount, RowInvariant, Authored;
  }

  lemma ThrownInvariants(d: Definition, c: Checkpoint)
    requires Authored(d) && ThrownAway(d, c) && c.phase == ABANDONED
    ensures ServedCount(c.orders) == c.activeOrderIndex && RowsFit(d.orders, c.orders)
    ensures forall i :: 0 <= i < |d.orders| ==> RowInvariant(d, c, i)
  {
    ServedPrefix(c.orders, c.activeOrderIndex);
  }

  lemma LeftShape(d: Definition, c: Checkpoint)
    requires Authored(d) && LeftBehind(d, c) && c.phase == ABANDONED
    ensures Shape(d, c)
  {
    ThrownInvariants(d, c);
    LedgerIsNonNegative(d, c.orders);
    hide Conserved, ServedCount, RowInvariant;
  }

  lemma LeftDecodes(d: Definition, c: Checkpoint)
    requires Authored(d) && LeftBehind(d, c) && c.phase == ABANDONED
    ensures Valid(d, c)
  {
    LeftShape(d, c);
    ThrownInvariants(d, c);
    var authored := StoryFlags(d);
    assert c.storyFlags <= authored;
    forall k | 0 <= k < c.activeOrderIndex && k < |d.orders| ensures authored[k] in c.storyFlags { assert c.storyFlags[k] == authored[k]; }
    hide Conserved, ServedCount, RowInvariant, Shape, StoryFlags;
  }

  /** An abandoned checkpoint passes the decoder exactly so. */
  lemma AbandonedExactly(d: Definition, c: Checkpoint)
    requires Authored(d) && c.phase == ABANDONED
    ensures Valid(d, c) <==> LeftBehind(d, c)
  {
    hide Valid, LeftBehind;
    if Valid(d, c) { AbandonedLeaves(d, c); }
    if LeftBehind(d, c) { LeftDecodes(d, c); }
  }
}
