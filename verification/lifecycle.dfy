/**
  The `Schedulable` mixin of `risks/models.py`: a persisted `state` field with
  the values queued, processing, ready and error, and the setters that re-read
  the row before writing it.

  A model instance is the pair of its stored row and its in-memory copy;
  `refresh_from_db` copies the stored row into memory and `save` writes the
  whole in-memory row back. Every write is also appended to a log, so that a
  sequence of operations can be judged by the rows it persisted.
 */
module Lifecycle {

  datatype State = Queued | Processing | Ready | Error

  /** The field default: a new entity is ready. */
  const DefaultState: State := Ready

  /** The lifecycle state together with the entity's other fields. */
  datatype Row<F> = Row(state: State, fields: F)

  datatype Instance<F> = Instance(stored: Row<F>, local: Row<F>)

  /** An instance and the rows written so far, oldest first. */
  datatype Session<F> = Session(obj: Instance<F>, writes: seq<Row<F>>)

  /** A new session on a row just read from the database. */
  function Load<F>(row: Row<F>): Session<F>
  {
    Session(Instance(row, row), [])
  }

  /** `refresh_from_db()`: unsaved in-memory changes are discarded. */
  function RefreshFromDb<F>(s: Session<F>): (r: Session<F>)
    ensures r.obj.local == r.obj.stored == s.obj.stored
    ensures r.writes == s.writes
  {
    Session(Instance(s.obj.stored, s.obj.stored), s.writes)
  }

  /** `save()`: the whole in-memory row is written. */
  function Save<F>(s: Session<F>): (r: Session<F>)
    ensures r.obj.stored == r.obj.local == s.obj.local
    ensures r.writes == s.writes + [s.obj.local]
  {
    Session(Instance(s.obj.local, s.obj.local), s.writes + [s.obj.local])
  }

  /** An in-memory edit of the non-state fields. */
  function WithFields<F>(s: Session<F>, f: F): (r: Session<F>)
    ensures r.obj.local == Row(s.obj.local.state, f)
    ensures r.obj.stored == s.obj.stored && r.writes == s.writes
  {
    Session(Instance(s.obj.stored, Row(s.obj.local.state, f)), s.writes)
  }

  /**
    `set_state(state, save)`: the in-memory state becomes `st`; only with
    `save` is the row written, and then it is written whole.
   */
  function SetState<F>(s: Session<F>, st: State, save: bool): (r: Session<F>)
    ensures r.obj.local == s.obj.local.(state := st)
    ensures !save ==> r.obj.stored == s.obj.stored && r.writes == s.writes
    ensures save ==> r.obj.stored == s.obj.local.(state := st) && r.writes == s.writes + [r.obj.stored]
  {
    var moved := Session(Instance(s.obj.stored, s.obj.local.(state := st)), s.writes);
    if save then Save(moved) else moved
  }

  /**
    The shared body of `set_queued`, `set_processing`, `set_ready` and
    `set_error`: re-read the row, set the state, save. The stored row then
    differs from the previously stored row in its state only, and unsaved
    in-memory edits are lost.
   */
  function SetAndSave<F>(s: Session<F>, st: State): (r: Session<F>)
    ensures r.obj.stored == r.obj.local
    ensures r.obj.stored == Row(st, s.obj.stored.fields)
    ensures r.writes == s.writes + [Row(st, s.obj.stored.fields)]
  {
    SetState(RefreshFromDb(s), st, true)
  }

  function SetQueued<F>(s: Session<F>): (r: Session<F>)
    ensures r.obj.stored.state == Queued
  {
    SetAndSave(s, Queued)
  }

  function SetProcessing<F>(s: Session<F>): (r: Session<F>)
    ensures r.obj.stored.state == Processing
  {
    SetAndSave(s, Processing)
  }

  function SetReady<F>(s: Session<F>): (r: Session<F>)
    ensures r.obj.stored.state == Ready
  {
    SetAndSave(s, Ready)
  }

  function SetError<F>(s: Session<F>): (r: Session<F>)
    ensures r.obj.stored.state == Error
  {
    SetAndSave(s, Error)
  }

  /**
    `schedule()` up to the dispatch of the background job: from any prior
    state the stored row is queued, with one write and its other fields as
    they were stored.
   */
  function Schedule<F>(s: Session<F>): (r: Session<F>)
    ensures r.obj.stored == r.obj.local == Row(Queued, s.obj.stored.fields)
    ensures r.writes == s.writes + [Row(Queued, s.obj.stored.fields)]
  {
    SetQueued(RefreshFromDb(s))
  }

  /** The states of a sequence of written rows. */
  function States<F>(rows: seq<Row<F>>): (r: seq<State>)
    ensures |r| == |rows|
    ensures forall i :: 0 <= i < |rows| ==> r[i] == rows[i].state
  {
    if |rows| == 0 then [] else [rows[0].state] + States(rows[1..])
  }
}
