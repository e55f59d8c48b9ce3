/** The in-memory tail of the run log: a ring that overwrites its oldest line
    once it is full. */
module LogRing {
  import opened Text

  /** A message with what else goes into its rendered line. */
  datatype LogLine = LogLine(text: string, context: string)

  /** The line as the ring keeps it, if it does. */
  function Kept(format: LogLine -> string, line: Option<LogLine>): Option<string> {
    if line.None? || TrimSpace(line.value.text) == "" then None else
      var text := TrimRight(format(line.value), c => c == '\n');
      if TrimSpace(text) == "" then None else Some(text)
  }

  /** The last n lines. */
  function Tail(lines: seq<string>, n: nat): seq<string> {
    if |lines| <= n then lines else lines[|lines| - n..]
  }

  function Joined(lines: seq<string>): string {
    if lines == [] then "" else
      var n := |lines| - 1;
      if n == 0 then lines[0] else Joined(lines[..n]) + "\n" + lines[n]
  }

  class LogBuffer {
    const capacity: nat
    /** Renders a line, without its colours. */
    const format: LogLine -> string
    var on: bool
    var lines: array?<string>
    var next: nat
    var full: bool
    /** All lines taken since the last Start. */
    ghost var captured: seq<string>

    ghost predicate Valid() reads this, lines {
      && capacity > 0
      && (if on then lines != null && lines.Length == capacity && next < capacity
          else next == 0 && !full && captured == [])
      && (on ==> if full then |captured| >= capacity else |captured| == next)
      && (on ==> forall j | 0 <= j < next :: lines[j] == captured[|captured| - next + j])
      && (on && full ==> forall j | next <= j < capacity :: lines[j] == captured[|captured| - next - capacity + j])
    }

    constructor (capacity: nat, format: LogLine -> string)
      requires capacity > 0
      ensures Valid() && !on && captured == [] && this.capacity == capacity && this.format == format
      ensures lines == null
    {
      this.capacity, this.format := capacity, format;
      on, lines, next, full, captured := false, null, 0, false, [];
    }

    method Start()
      requires Valid()
      modifies this
      ensures Valid() && on && captured == [] && fresh(lines)
    {
      on := true;
      lines := new string[capacity](_ => "");
      next, full := 0, false;
      captured := [];
    }

    method Stop()
      requires Valid()
      modifies this
      ensures Valid() && !on && captured == [] && lines == null
    {
      on := false;
      lines := null;
      next, full := 0, false;
      captured := [];
    }

    method Capture(line: Option<LogLine>)
      requires Valid()
      modifies this, lines
      ensures Valid() && on == old(on) && lines == old(lines)
      ensures captured == if old(on) && Kept(format, line).Some? then old(captured) + [Kept(format, line).value]
              else old(captured)
    {
      hide TrimSpace, TrimRight;
      if line.None? { return; }
      if !on { return; }
      if TrimSpace(line.value.text) == "" { return; }
      var text := TrimRight(format(line.value), c => c == '\n');
      if TrimSpace(text) == "" { return; }
      lines[next] := text;
      captured := captured + [text];
      next := next + 1;
      if next == capacity {
        next, full := 0, true;
      }
    }

    /** The i-th line, oldest first. */
    method At(i: nat) returns (line: string)
      requires Valid() && on && i < (if full then capacity else next)
      ensures line == Tail(captured, capacity)[i]
    {
      if !full {
        return lines[i];
      }
      Wraps(next + i, capacity);
      var slot := (next + i) % capacity;
      line := lines[slot];
      SlotHolds(i, slot);
    }

    lemma SlotHolds(i: nat, slot: nat)
      requires Valid() && on && full && i < capacity && slot == if next + i < capacity then next + i
               else next + i - capacity
      ensures lines[slot] == Tail(captured, capacity)[i]
    {
    }

    /** The last lines since Start, as many as fit, oldest first. */
    method Recent() returns (text: string)
      requires Valid()
      ensures text == Joined(Tail(captured, capacity))
    {
      var n := if full then capacity else next;
      if n == 0 {
        return "";
      }
      ghost var tail := Tail(captured, capacity);
      assert |tail| == n;
      text := "";
      for i := 0 to n
        invariant text == Joined(tail[..i])
      {
        if i > 0 {
          text := text + "\n";
        }
        var line := At(i);
        assert tail[..i + 1][..i] == tail[..i];
        text := text + line;
      }
      assert tail[..n] == tail;
    }
  }

  lemma Wraps(a: nat, n: nat)
    requires 0 < n && a < 2 * n
    ensures a % n == if a < n then a else a - n
  {
  }

  // ----- whole runs

  datatype Op = StartOp | StopOp | CaptureOp(line: Option<LogLine>)

  /** The last Start or Stop, or -1. */
  function LastMark(ops: seq<Op>): (i: int)
    ensures -1 <= i < |ops|
    ensures i >= 0 ==> !ops[i].CaptureOp?
    ensures forall j | i < j < |ops| :: ops[j].CaptureOp?
  {
    if ops == [] then -1
    else if ops[|ops| - 1].CaptureOp? then LastMark(ops[..|ops| - 1])
    else |ops| - 1
  }

  /** The kept lines among some captures. */
  function KeptLines(format: LogLine -> string, ops: seq<Op>): seq<string> {
    if ops == [] then [] else
      var n := |ops| - 1;
      KeptLines(format, ops[..n])
      + if ops[n].CaptureOp? && Kept(format, ops[n].line).Some? then [Kept(format, ops[n].line).value] else []
  }

  /** Recording is on if the last Start has no Stop after it. */
  predicate Recording(ops: seq<Op>) {
    LastMark(ops) >= 0 && ops[LastMark(ops)].StartOp?
  }

  function SinceStart(format: LogLine -> string, ops: seq<Op>): seq<string> {
    if Recording(ops) then KeptLines(format, ops[LastMark(ops) + 1..]) else []
  }

  /** After any run of operations the text is the last lines captured since the
      last Start. */
  method RunOps(capacity: nat, format: LogLine -> string, ops: seq<Op>) returns (text: string)
    requires capacity > 0
    ensures text == Joined(Tail(SinceStart(format, ops), capacity))
  {
    hide *;
    var buffer := new LogBuffer(capacity, format);
    NoOps(format);
    assert ops[..0] == [];
    for k := 0 to |ops|
      invariant buffer.Valid() && fresh(buffer) && (buffer.lines == null || fresh(buffer.lines))
      invariant buffer.format == format && buffer.capacity == capacity
      invariant buffer.on == Recording(ops[..k])
      invariant buffer.captured == SinceStart(format, ops[..k])
    {
      NextOp(format, ops[..k], ops[k]);
      assert ops[..k + 1] == ops[..k] + [ops[k]];
      match ops[k] {
        case StartOp => buffer.Start();
        case StopOp => buffer.Stop();
        case CaptureOp(line) => buffer.Capture(line);
      }
    }
    assert ops[..|ops|] == ops;
    text := buffer.Recent();
  }

  lemma NextOp(format: LogLine -> string, ops: seq<Op>, op: Op)
    ensures Recording(ops + [op]) == (op.StartOp? || (op.CaptureOp? && Recording(ops)))
    ensures SinceStart(format, ops + [op]) ==
            if op.CaptureOp? && Recording(ops) && Kept(format, op.line).Some?
               then SinceStart(format, ops) + [Kept(format, op.line).value]
            else if op.CaptureOp? then SinceStart(format, ops) else []
  {
    var all := ops + [op];
    hide Kept, KeptLines;
    assert all[..|ops|] == ops;
    assert LastMark(all) == if op.CaptureOp? then LastMark(ops) else |ops|;
    hide LastMark;
    var m := LastMark(all) + 1;
    if op.CaptureOp? {
      assert all[m..] == ops[m..] + [op];
      NextKept(format, ops[m..], op);
    } else {
      assert all[m..] == [];
      assert KeptLines(format, []) == [] by { NoneKept(format); }
    }
  }

  lemma NoOps(format: LogLine -> string)
    ensures !Recording([]) && SinceStart(format, []) == []
  {
  }

  lemma NoneKept(format: LogLine -> string)
    ensures KeptLines(format, []) == []
  {
  }

  lemma NextKept(format: LogLine -> string, ops: seq<Op>, op: Op)
    requires op.CaptureOp?
    ensures KeptLines(format, ops + [op])
         == if Kept(format, op.line).Some? then KeptLines(format, ops) + [Kept(format, op.line).value]
            else KeptLines(format, ops)
  {
    hide Kept;
    assert (ops + [op])[..|ops|] == ops;
  }
}
