// The per-minor buffers of assignment11/multi_devices/multi_devices.c, seen through any number
// of open files.
module DeviceBuffers {
  import opened Counting

  const BUF_SIZE: nat := 1024

  datatype Result = Bytes(data: string) | Fault

  function Min(a: nat, b: nat): nat { if a < b then a else b }

  // ---- One buffer ----

  // What my_read hands out at an offset of a buffer with this content.
  function Chunk(content: string, pos: nat, count: nat): (data: string)
    ensures pos >= |content| ==> data == ""
    ensures pos < |content| ==> |data| == Min(count, |content| - pos) && data <= content[pos..]
  {
    if pos >= |content| then "" else content[pos..pos + Min(count, |content| - pos)]
  }

  // What a copy_from_user of `data` that fails after n bytes leaves at its destination: it fills
  // the part that it could not copy with zeros.
  function Partial(data: string, n: nat): (left: string)
    requires n <= |data|
    ensures |left| == |data| && left[..n] == data[..n]
    ensures forall k :: n <= k < |data| ==> left[k] == '\0'
  {
    data[..n] + seq(|data| - n, _ => '\0')
  }

  // The content of a buffer whose start has been overwritten while its length stays.
  function Overlay(content: string, copied: string): string
  {
    if |copied| <= |content| then copied + content[|copied|..] else copied[..|content|]
  }

  lemma OverlayAt(content: string, copied: string, k: nat)
    requires k < |content|
    ensures |Overlay(content, copied)| == |content|
    ensures Overlay(content, copied)[k] == if k < |copied| then copied[k] else content[k]
  {
  }

  // ---- The device with its open files ----

  datatype File = File(minor: nat, pos: nat)

  // minors[m] is buffer[m][0..buf_size[m]].
  datatype Device = Device(minors: seq<string>, files: seq<File>)

  // faultAt is the number of bytes copied before the user memory turns out to be bad.
  datatype Op = Open(minor: nat) | Read(f: nat, count: nat, fault: bool)
              | Write(f: nat, data: string, faultAt: Option<nat>)

  predicate Legal(d: Device, op: Op)
  {
    match op
    case Open(m) => m < |d.minors|
    case Read(f, _, _) => f < |d.files| && d.files[f].minor < |d.minors|
    case Write(f, _, _) => f < |d.files| && d.files[f].minor < |d.minors|
  }

  function Accepted(data: string): string { data[..Min(|data|, BUF_SIZE)] }

  function Apply(d: Device, op: Op): Device
    requires Legal(d, op)
  {
    match op
    case Open(m) => d.(files := d.files + [File(m, 0)])
    case Read(f, count, fault) =>
      var file := d.files[f];
      d.(files := d.files[f := file.(pos := file.pos + |Answer(d, op)|)])
    case Write(f, data, faultAt) =>
      var file := d.files[f];
      if faultAt.Some? && faultAt.value < |Accepted(data)| then
        d.(minors := d.minors[file.minor := Overlay(d.minors[file.minor], Partial(Accepted(data), faultAt.value))])
      else
        Device(d.minors[file.minor := Accepted(data)], d.files[f := file.(pos := 0)])
  }

  // The bytes an operation returns to its caller.
  function Answer(d: Device, op: Op): string
    requires Legal(d, op)
  {
    if op.Read? && !op.fault then Chunk(d.minors[d.files[op.f].minor], d.files[op.f].pos, op.count) else ""
  }

  predicate LegalRun(d: Device, ops: seq<Op>)
    decreases |ops|
  {
    ops == [] || (Legal(d, ops[0]) && LegalRun(Apply(d, ops[0]), ops[1..]))
  }

  function Exec(d: Device, ops: seq<Op>): Device
    requires LegalRun(d, ops)
    decreases |ops|
  {
    if ops == [] then d else Exec(Apply(d, ops[0]), ops[1..])
  }

  // Everything file f reads in the course of a run.
  function ReadBy(d: Device, f: nat, ops: seq<Op>): string
    requires LegalRun(d, ops)
    decreases |ops|
  {
    if ops == [] then ""
    else (if ops[0].Read? && ops[0].f == f then Answer(d, ops[0]) else "") + ReadBy(Apply(d, ops[0]), f, ops[1..])
  }

  // How many bytes file f asks for, not counting requests that fail.
  function Asked(f: nat, ops: seq<Op>): nat
    decreases |ops|
  {
    if ops == [] then 0
    else (if ops[0].Read? && ops[0].f == f && !ops[0].fault then ops[0].count else 0) + Asked(f, ops[1..])
  }

  // Nobody, through any file, writes to this minor.
  ghost predicate Untouched(d: Device, minor: nat, ops: seq<Op>)
    requires LegalRun(d, ops)
    decreases |ops|
  {
    ops == [] || ((ops[0].Write? ==> d.files[ops[0].f].minor != minor) && Untouched(Apply(d, ops[0]), minor, ops[1..]))
  }

  ghost predicate Inv(d: Device)
  {
    && (forall m :: 0 <= m < |d.minors| ==> |d.minors[m]| <= BUF_SIZE)
    && (forall f :: 0 <= f < |d.files| ==> d.files[f].minor < |d.minors|)
  }

  // ---- Properties of every run ----

  lemma ApplyInv(d: Device, op: Op)
    requires Inv(d) && Legal(d, op)
    ensures Inv(Apply(d, op)) && |Apply(d, op).minors| == |d.minors|
  {
  }

  lemma {:induction false} RunInv(d: Device, ops: seq<Op>)
    requires Inv(d) && LegalRun(d, ops)
    ensures Inv(Exec(d, ops)) && |Exec(d, ops).minors| == |d.minors|
    decreases |ops|
  {
    if ops != [] {
      ApplyInv(d, ops[0]);
      RunInv(Apply(d, ops[0]), ops[1..]);
    }
  }

  // A minor that nobody writes keeps its content, whatever happens on the others.
  lemma {:induction false} MinorsAreIsolated(d: Device, minor: nat, ops: seq<Op>)
    requires LegalRun(d, ops) && minor < |d.minors| && Untouched(d, minor, ops)
    ensures minor < |Exec(d, ops).minors| && Exec(d, ops).minors[minor] == d.minors[minor]
    decreases |ops|
  {
    if ops != [] {
      MinorsAreIsolated(Apply(d, ops[0]), minor, ops[1..]);
    }
  }

  // One operation of anyone, on a minor it does not write: the file has moved on by what it read.
  lemma OneStep(d: Device, f: nat, op: Op)
    requires Legal(d, op) && f < |d.files| && d.files[f].minor < |d.minors|
    requires op.Write? ==> d.files[op.f].minor != d.files[f].minor
    ensures f < |Apply(d, op).files| && Apply(d, op).files[f].minor == d.files[f].minor < |Apply(d, op).minors|
    ensures Apply(d, op).minors[d.files[f].minor] == d.minors[d.files[f].minor]
    ensures Apply(d, op).files[f].pos == d.files[f].pos + if op.Read? && op.f == f then |Answer(d, op)| else 0
  {
  }

  // A file reads on from where it stands: what it gets is the next part of the content, as long
  // as it asked for or as there is, however the requests are cut up and interleaved.
  lemma {:induction false} ReadsContinue(d: Device, f: nat, ops: seq<Op>)
    requires LegalRun(d, ops) && f < |d.files| && d.files[f].minor < |d.minors|
    requires Untouched(d, d.files[f].minor, ops)
    ensures ReadBy(d, f, ops) == Chunk(d.minors[d.files[f].minor], d.files[f].pos, Asked(f, ops))
    decreases |ops|
  {
    if ops != [] {
      OneStep(d, f, ops[0]);
      ReadsContinue(Apply(d, ops[0]), f, ops[1..]);
      var op, later := ops[0], Asked(f, ops[1..]);
      var content, pos := d.minors[d.files[f].minor], d.files[f].pos;
      if op.Read? && op.f == f && !op.fault {
        ReadsNext(d, f, ops);
        Chunks(content, pos, op.count, later);
      } else {
        SkipsNext(d, f, ops);
      }
    }
  }

  lemma ReadsNext(d: Device, f: nat, ops: seq<Op>)
    requires LegalRun(d, ops) && ops != [] && ops[0].Read? && ops[0].f == f && !ops[0].fault
    ensures ReadBy(d, f, ops)
         == Chunk(d.minors[d.files[f].minor], d.files[f].pos, ops[0].count) + ReadBy(Apply(d, ops[0]), f, ops[1..])
    ensures Asked(f, ops) == ops[0].count + Asked(f, ops[1..])
  {
  }

  lemma SkipsNext(d: Device, f: nat, ops: seq<Op>)
    requires LegalRun(d, ops) && ops != [] && !(ops[0].Read? && ops[0].f == f && !ops[0].fault)
    ensures ReadBy(d, f, ops) == ReadBy(Apply(d, ops[0]), f, ops[1..]) && Asked(f, ops) == Asked(f, ops[1..])
    ensures ops[0].Read? && ops[0].f == f ==> Answer(d, ops[0]) == ""
  {
  }

  lemma Chunks(content: string, pos: nat, first: nat, second: nat)
    ensures Chunk(content, pos, first) + Chunk(content, pos + |Chunk(content, pos, first)|, second)
         == Chunk(content, pos, first + second)
  {
  }

  // What one file writes, the same file reads back: the first BUF_SIZE bytes of it, up to the
  // number of bytes asked for, if nobody writes that minor in between.
  lemma WriteThenRead(d: Device, f: nat, data: string, ops: seq<Op>)
    requires Legal(d, Write(f, data, None)) && LegalRun(Apply(d, Write(f, data, None)), ops)
    requires Untouched(Apply(d, Write(f, data, None)), d.files[f].minor, ops)
    ensures ReadBy(Apply(d, Write(f, data, None)), f, ops) == Accepted(data)[..Min(Asked(f, ops), |Accepted(data)|)]
  {
    ReadsContinue(Apply(d, Write(f, data, None)), f, ops);
  }

  lemma {:induction false} PositionAdvances(d: Device, f: nat, ops: seq<Op>)
    requires LegalRun(d, ops) && f < |d.files| && d.files[f].minor < |d.minors|
    requires Untouched(d, d.files[f].minor, ops)
    ensures f < |Exec(d, ops).files| && Exec(d, ops).files[f].minor == d.files[f].minor < |Exec(d, ops).minors|
    ensures Exec(d, ops).files[f].pos == d.files[f].pos + |ReadBy(d, f, ops)|
    decreases |ops|
  {
    if ops != [] {
      OneStep(d, f, ops[0]);
      PositionAdvances(Apply(d, ops[0]), f, ops[1..]);
    }
  }

  // Reading until a read that asks for something returns nothing yields all that was written,
  // cut to BUF_SIZE bytes, and it yields nothing before that.
  lemma ReadUntilEmpty(d: Device, f: nat, data: string, ops: seq<Op>, count: nat)
    requires Legal(d, Write(f, data, None)) && LegalRun(Apply(d, Write(f, data, None)), ops) && count > 0
    requires Untouched(Apply(d, Write(f, data, None)), d.files[f].minor, ops)
    ensures var written := Apply(d, Write(f, data, None));
      && Legal(Exec(written, ops), Read(f, count, false))
      && (Answer(Exec(written, ops), Read(f, count, false)) == "" <==> ReadBy(written, f, ops) == Accepted(data))
  {
    var written := Apply(d, Write(f, data, None));
    ReadsContinue(written, f, ops);
    PositionAdvances(written, f, ops);
    MinorsAreIsolated(written, d.files[f].minor, ops);
  }

  // A write that fails part of the way changes neither the length of the content nor any offset:
  // up to the fault there is the new data, from there to the accepted count there are zeros, and
  // after that the old content.
  lemma FaultyWrite(d: Device, f: nat, data: string, n: nat, k: nat)
    requires Legal(d, Write(f, data, Some(n))) && n < |Accepted(data)| && k < |d.minors[d.files[f].minor]|
    ensures var d' := Apply(d, Write(f, data, Some(n)));
      var content, content' := d.minors[d.files[f].minor], d'.minors[d.files[f].minor];
      && |content'| == |content| && d'.files == d.files
      && content'[k] == if k < n then data[k] else if k < |Accepted(data)| then '\0' else content[k]
  {
    OverlayAt(d.minors[d.files[f].minor], Partial(Accepted(data), n), k);
    var left := Partial(Accepted(data), n);
    assert k < n ==> left[k] == left[..n][k] == Accepted(data)[..n][k];
  }

  // ---- Opening ----

  // A file opened on a minor reads that minor from its start.
  lemma OpenThenRead(d: Device, minor: nat, ops: seq<Op>)
    requires Legal(d, Open(minor)) && LegalRun(Apply(d, Open(minor)), ops)
    requires Untouched(Apply(d, Open(minor)), minor, ops)
    ensures ReadBy(Apply(d, Open(minor)), |d.files|, ops)
         == d.minors[minor][..Min(Asked(|d.files|, ops), |d.minors[minor]|)]
  {
    ReadsContinue(Apply(d, Open(minor)), |d.files|, ops);
  }

  // What one file writes to a minor, a file opened on it later reads back from the start, whatever
  // happens on other minors before and after the opening.
  lemma WriteThenOpenAndRead(d: Device, f: nat, data: string, before: seq<Op>, after: seq<Op>)
    requires Legal(d, Write(f, data, None)) && LegalRun(Apply(d, Write(f, data, None)), before)
    requires Untouched(Apply(d, Write(f, data, None)), d.files[f].minor, before)
    requires var m := Exec(Apply(d, Write(f, data, None)), before);
      && Legal(m, Open(d.files[f].minor)) && LegalRun(Apply(m, Open(d.files[f].minor)), after)
      && Untouched(Apply(m, Open(d.files[f].minor)), d.files[f].minor, after)
    ensures var m := Exec(Apply(d, Write(f, data, None)), before);
      ReadBy(Apply(m, Open(d.files[f].minor)), |m.files|, after)
      == Accepted(data)[..Min(Asked(|m.files|, after), |Accepted(data)|)]
  {
    var written := Apply(d, Write(f, data, None));
    MinorsAreIsolated(written, d.files[f].minor, before);
    OpenThenRead(Exec(written, before), d.files[f].minor, after);
  }

  predicate Uses(op: Op, f: nat)
  {
    !op.Open? && op.f == f
  }

  // A file stays on its minor whatever is done, and keeps its offset as long as nobody reads or
  // writes through it, even if others write the same minor.
  lemma {:induction false} FilesKeepTheirPlace(d: Device, f: nat, ops: seq<Op>)
    requires LegalRun(d, ops) && f < |d.files|
    ensures |d.files| <= |Exec(d, ops).files| && Exec(d, ops).files[f].minor == d.files[f].minor
    ensures (forall k :: 0 <= k < |ops| ==> !Uses(ops[k], f)) ==> Exec(d, ops).files[f] == d.files[f]
    decreases |ops|
  {
    if ops != [] {
      assert Apply(d, ops[0]).files[f].minor == d.files[f].minor;
      FilesKeepTheirPlace(Apply(d, ops[0]), f, ops[1..]);
      if forall k :: 0 <= k < |ops| ==> !Uses(ops[k], f) {
        assert !Uses(ops[0], f);
        assert forall k :: 0 <= k < |ops[1..]| ==> ops[1..][k] == ops[k + 1];
      }
    }
  }

  // ---- The driver ----

  class OpenFile {
    const minor: nat
    var pos: nat

    // my_open, and the offset that the kernel starts a file at.
    constructor (minor: nat)
      ensures this.minor == minor && pos == 0
    {
      this.minor := minor;
      pos := 0;
    }
  }

  class Driver {
    const buffer: array2<char>
    const bufSize: array<nat>

    ghost predicate Valid()
      reads this, bufSize
    {
      && buffer.Length0 == bufSize.Length && buffer.Length1 == BUF_SIZE
      && forall m :: 0 <= m < bufSize.Length ==> bufSize[m] <= BUF_SIZE
    }

    ghost function Content(m: nat): string
      reads this, buffer, bufSize
      requires Valid() && m < bufSize.Length
    {
      seq(bufSize[m], k requires 0 <= k < bufSize[m] && Valid() reads this, buffer, bufSize => buffer[m, k])
    }

    constructor (devices: nat)
      ensures Valid() && bufSize.Length == devices && fresh(buffer) && fresh(bufSize)
      ensures forall m :: 0 <= m < devices ==> Content(m) == ""
    {
      buffer := new char[devices, BUF_SIZE]((m, k) => '\0');
      bufSize := new nat[devices](m => 0);
    }

    method Read(file: OpenFile, count: nat, fault: bool) returns (r: Result)
      requires Valid() && file.minor < bufSize.Length
      modifies file`pos
      ensures var data := Chunk(Content(file.minor), old(file.pos), count);
        if fault && data != "" then r == Fault && file.pos == old(file.pos)
        else r == Bytes(data) && file.pos == old(file.pos) + |data|
    {
      var size := bufSize[file.minor];
      if file.pos >= size {
        return Bytes("");
      }
      var n := count;
      if n > size - file.pos {
        n := size - file.pos;
      }
      if fault && n > 0 {
        return Fault;
      }
      var data := "";
      var k := 0;
      while k < n
        invariant 0 <= k <= n && data == Content(file.minor)[file.pos..file.pos + k]
      {
        data := data + [buffer[file.minor, file.pos + k]];
        k := k + 1;
      }
      file.pos := file.pos + n;
      r := Bytes(data);
    }

    method Write(file: OpenFile, data: string, faultAt: Option<nat>) returns (r: Result)
      requires Valid() && file.minor < bufSize.Length
      modifies file`pos, buffer, bufSize
      ensures Valid()
      ensures faultAt.Some? && faultAt.value < |Accepted(data)| ==>
        && r == Fault && file.pos == old(file.pos)
        && Content(file.minor) == Overlay(old(Content(file.minor)), Partial(Accepted(data), faultAt.value))
      ensures !(faultAt.Some? && faultAt.value < |Accepted(data)|) ==>
        && r == Bytes(Accepted(data)) && file.pos == 0
        && Content(file.minor) == Accepted(data)
      ensures forall m :: 0 <= m < bufSize.Length && m != file.minor ==> Content(m) == old(Content(m))
    {
      var count := |data|;
      if count > BUF_SIZE {
        count := BUF_SIZE;
      }
      if faultAt.Some? && faultAt.value < count {
        Fill(file.minor, Partial(data[..count], faultAt.value));
        return Fault;
      }
      Fill(file.minor, data[..count]);
      bufSize[file.minor] := count;
      file.pos := 0;
      r := Bytes(Accepted(data));
    }

    // What copy_from_user does to the buffer.
    method Fill(minor: nat, data: string)
      requires Valid() && minor < bufSize.Length && |data| <= BUF_SIZE
      modifies buffer
      ensures forall k :: 0 <= k < |data| ==> buffer[minor, k] == data[k]
      ensures forall k :: |data| <= k < BUF_SIZE ==> buffer[minor, k] == old(buffer[minor, k])
      ensures forall m, k :: 0 <= m < buffer.Length0 && 0 <= k < BUF_SIZE && m != minor ==>
        buffer[m, k] == old(buffer[m, k])
    {
      var k := 0;
      while k < |data|
        invariant 0 <= k <= |data|
        invariant forall j :: 0 <= j < k ==> buffer[minor, j] == data[j]
        invariant forall j :: k <= j < BUF_SIZE ==> buffer[minor, j] == old(buffer[minor, j])
        invariant forall m, j :: 0 <= m < buffer.Length0 && 0 <= j < BUF_SIZE && m != minor ==>
          buffer[m, j] == old(buffer[m, j])
      {
        buffer[minor, k] := data[k];
        k := k + 1;
      }
    }
  }
}
