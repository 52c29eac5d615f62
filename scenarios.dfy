/**
  Concrete runs of commit processing (src/index.js:93-131), evaluated on the
  value model of module Replay.
 */
module Scenarios {
  import opened CursorStore
  import opened Replay

  /**
    Cursor (5, -1) and a batch of commits #4, #5 and #6: the first two are
    already processed and deliver nothing; only the events of #6 are posted,
    tagged (6, 0) and (6, 1), and the cursor ends at (6, -1).
   */
  lemma SkipAheadScenario()
    ensures var cur := CursorRecord(5, -1);
      var batch := [CommitData(4, ["a"]), CommitData(5, ["b"]), CommitData(6, ["c", "d"])];
      && BatchDeliveries(cur, batch) == [Delivery("c", 6, 0), Delivery("d", 6, 1)]
      && BatchCursor(cur, batch) == CursorRecord(6, -1)
  {
    var cur := CursorRecord(5, -1);
    var batch := [CommitData(4, ["a"]), CommitData(5, ["b"]), CommitData(6, ["c", "d"])];
    SkipAhead(cur, batch[..2], batch[2..]);
    assert batch[..2] + batch[2..] == batch;
    BatchSnoc(cur, [], batch[2]);
  }

  /**
    A cursor persisted as (5, 2) after a crash: commit #5 is treated as done,
    since its sequence is not greater than the cursor's, and none of its events
    is posted.
   */
  lemma ResumeSkipsSameSequence()
    ensures var cur := CursorRecord(5, 2);
      var c := CommitData(5, ["e0", "e1", "e2", "e3", "e4"]);
      && BatchDeliveries(cur, [c]) == []
      && BatchCursor(cur, [c]) == cur
  {
  }

  /**
    The index of a cursor (5, 2) trims the next newer commit, #6 here: its
    events at positions 3 and 4 are posted, tagged (6, 0) and (6, 1), and the
    cursor ends at (6, -1).
   */
  lemma ResumeTrimsNextCommit()
    ensures var cur := CursorRecord(5, 2);
      var c := CommitData(6, ["e0", "e1", "e2", "e3", "e4"]);
      && BatchDeliveries(cur, [c]) == [Delivery("e3", 6, 0), Delivery("e4", 6, 1)]
      && BatchCursor(cur, [c]) == CursorRecord(6, -1)
  {
    var cur := CursorRecord(5, 2);
    var c := CommitData(6, ["e0", "e1", "e2", "e3", "e4"]);
    BatchSnoc(cur, [], c);
    assert Unprocessed(c.payloads, 2) == ["e3", "e4"];
  }
}
