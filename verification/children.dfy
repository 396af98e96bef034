/** A captured line as a record: the child, the time and the stream it came from, then its bytes
    (include/sub0log/child.hpp:402-458, include/sub0log/wire.hpp:475-493). */
module Children {
  import opened Bytes
  import opened Wire
  import opened Layout
  import opened Fit
  import opened Answers
  import Capture
  import Sequential

  const CHILD_PREFIX := 24

  /** What a reader makes of a child's output record. */
  datatype Output = Output(childId: nat, monoNs: nat, stream: byte, line: Capture.Line)

  function OutputPayload(childId: nat, clock: nat, stream: byte, text: seq<byte>): (p: seq<byte>)
    requires childId < TWO64 && clock < TWO64
    ensures |p| == CHILD_PREFIX + |text|
  {
    Le64(childId) + Le64(clock) + [stream] + Zeros(7) + text
  }

  /** The request a captured line becomes. */
  function LineRequest(childId: nat, clock: nat, stream: byte, line: Capture.Line): Request
    requires childId < TWO64 && clock < TWO64
  {
    Note(CHILD_OUTPUT, Flags(line.truncated, false), OutputPayload(childId, clock, stream, line.text))
  }

  function ReadOutput(r: Rec): Option<Output> {
    if r.kind != CHILD_OUTPUT || |r.payload| < CHILD_PREFIX then None
    else Some(Output(U64(r.payload, 0), U64(r.payload, 8), r.payload[16],
                     Capture.Line(r.payload[CHILD_PREFIX..], Truncated(r.flags))))
  }

  lemma OutputReads(childId: nat, clock: nat, stream: byte, line: Capture.Line)
    requires childId < TWO64 && clock < TWO64
    ensures ReadOutput(Rec(CHILD_OUTPUT, Flags(line.truncated, false), OutputPayload(childId, clock, stream, line.text)))
            == Some(Output(childId, clock, stream, line))
  {
    var p := OutputPayload(childId, clock, stream, line.text);
    assert p[0..8] == Le64(childId) && p[8..16] == Le64(clock);
    LoadLe64(p, 0, childId);
    LoadLe64(p, 8, clock);
    assert p[CHILD_PREFIX..] == line.text;
  }

  /** A line handed to a logger ends as one record that reads back as that line, its child, time
      and stream, or as one drop; and it is dropped only when no chunk is left or an empty one
      is too small for it. */
  lemma LineSurvives(sh: Sequential.Shelf, childId: nat, clock: nat, stream: byte, line: Capture.Line, now: Word64, correlation: Word64)
    requires childId < TWO64 && clock < TWO64 && Sequential.ShelfOk(sh) && sh.room % RECORD_ALIGN == 0
    ensures var o := Sequential.Deliver(sh, LineRequest(childId, clock, stream, line), now, correlation);
            if o.group.Some? then
              exists r :: RecOk(r) && Sequential.Grew(sh.chunks, o.shelf.chunks, [r]) && ReadOutput(r) == Some(Output(childId, clock, stream, line))
            else
              && Sequential.Grew(sh.chunks, o.shelf.chunks, []) && o.shelf.dropped == sh.dropped + 1
              && (|o.shelf.chunks| == sh.count || !Reserves(CHILD_PREFIX + |line.text|, sh.room))
  {
    hide Sequential.Deliver, Sequential.Grew;
    var q := LineRequest(childId, clock, stream, line);
    Sequential.DeliverWrites(sh, q, now, correlation);
    Sequential.DeliverFate(sh, q, now, correlation);
    Sequential.DeliverLedger(sh, q, now, correlation);
    OutputReads(childId, clock, stream, line);
    var o := Sequential.Deliver(sh, q, now, correlation);
    if o.group.Some? {
      var r := Rec(q.kind, q.flags, q.payload);
      assert Sequential.Grew(sh.chunks, o.shelf.chunks, [r]);
    }
  }
}
