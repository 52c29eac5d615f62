/**
  The checkpoint `lastProcessedCommit` (src/index.js:10, 19-57): the sequence
  of the last fully processed commit and the index of the last delivered event
  of the commit in flight. Every mutation is followed by a synchronous save, so
  a restart that loads the persisted record resumes from the live cursor.

  The file is modelled by the ghost field `persisted`: `None` stands for a
  missing, unreadable or unparseable file, `Some(r)` for a file holding `r`.
 */
module CursorStore {
  import opened Wrappers

  datatype CursorRecord = CursorRecord(sequence: int, index: int)

  /** The cursor before anything has been processed. */
  const Initial: CursorRecord := CursorRecord(-1, -1)

  /** What `load` makes of the persisted state: its contents, or the default when there is none. */
  function Restore(stored: Option<CursorRecord>): CursorRecord {
    match stored
    case None => Initial
    case Some(r) => r
  }

  class Cursor {
    var sequence: int
    var index: int
    /** The persisted file, as `save` last wrote it. */
    ghost var persisted: Option<CursorRecord>

    function Current(): CursorRecord
      reads this
    {
      CursorRecord(sequence, index)
    }

    /** A restart now would load the live cursor. */
    ghost predicate Durable()
      reads this
    {
      Restore(persisted) == Current()
    }

    /** `load`: read the persisted record, defaulting to (-1, -1) when there is none. */
    constructor Load(stored: Option<CursorRecord>)
      ensures persisted == stored
      ensures stored.None? ==> sequence == -1 && index == -1
      ensures stored.Some? ==> sequence == stored.value.sequence && index == stored.value.index
      ensures Durable()
    {
      var data := CursorRecord(-1, -1);
      if stored.Some? {
        data := stored.value;
      }
      sequence := data.sequence;
      index := data.index;
      persisted := stored;
    }

    /** `save`: write the live cursor to the file. */
    method Save()
      modifies this`persisted
      ensures persisted == Some(Current())
      ensures Durable()
    {
      persisted := Some(CursorRecord(sequence, index));
    }

    /** `incrementSequence(s)`: the commit `s` is complete; no event of the next one is delivered yet. */
    method IncrementSequence(s: int)
      modifies this
      ensures sequence == s && index == -1
      ensures persisted == Some(Current())
      ensures Durable()
    {
      sequence := s;
      index := -1;
      Save();
    }

    /** `incrementEvent`: one more event of the commit in flight is delivered. */
    method IncrementEvent()
      modifies this
      ensures sequence == old(sequence) && index == old(index) + 1
      ensures persisted == Some(Current())
      ensures Durable()
    {
      index := index + 1;
      Save();
    }
  }
}
