/** The frames of the desktop connection: a little-endian type and length, then the payload; a received message is a
    run of frames, each answered in turn. Sizes are those of a platform with 64-bit integers. */
module Clink {
  import opened Octets

  type uint16 = x: int | 0 <= x < 0x1_0000
  type uint32 = x: int | 0 <= x < 0x1_0000_0000

  function Le16(v: uint16): (r: seq<byte>)
    ensures |r| == 2 && U16(r) == v
  {
    [v % 0x100, v / 0x100]
  }

  function Le32(v: uint32): (r: seq<byte>)
    ensures |r| == 4 && U32(r) == v
  {
    var v1 := v / 0x100;
    var v2 := v1 / 0x100;
    [v % 0x100, v1 % 0x100, v2 % 0x100, v2 / 0x100]
  }

  function U16(s: seq<byte>): uint16
    requires |s| == 2
  {
    s[0] as int + 0x100 * s[1] as int
  }

  function U32(s: seq<byte>): uint32
    requires |s| == 4
  {
    s[0] as int + 0x100 * s[1] as int + 0x1_0000 * s[2] as int + 0x100_0000 * s[3] as int
  }

  lemma LittleEndianUnique16(s: seq<byte>)
    requires |s| == 2
    ensures Le16(U16(s)) == s
  {
  }

  lemma LittleEndianUnique32(s: seq<byte>)
    requires |s| == 4
    ensures Le32(U32(s)) == s
  {
    var v: int := U32(s);
    Digit(v, s[0], s[1] as int + 0x100 * s[2] as int + 0x1_0000 * s[3] as int);
    Digit(v / 0x100, s[1], s[2] as int + 0x100 * s[3] as int);
    Digit(v / 0x100 / 0x100, s[2], s[3]);
    assert Le32(v) == [s[0], s[1], s[2], s[3]];
  }

  lemma Digit(v: int, low: byte, high: int)
    requires v == low as int + 0x100 * high
    ensures v % 0x100 == low && v / 0x100 == high
  {
  }

  function Low32(n: nat): uint32 {
    n % 0x1_0000_0000
  }

  // ---- Writing ----

  /** What a message looks like on the wire; a wrapped one starts its payload with a length and an offset. */
  function Wire(typ: uint16, data: seq<byte>, wrapped: bool): seq<byte> {
    if wrapped then
      Le16(typ) + Le32(Low32(8 + |data|)) + (Le32(Low32(|data|)) + Le32(8) + data)
    else
      Le16(typ) + Le32(Low32(|data|)) + data
  }

  /** Writes `src` at `at`. */
  method Copy(dst: array<byte>, at: nat, src: seq<byte>)
    requires at + |src| <= dst.Length
    modifies dst
    ensures dst[..at + |src|] == old(dst[..at]) + src
    ensures dst[at + |src|..] == old(dst[at + |src|..])
  {
    for i := 0 to |src|
      invariant dst[..at + i] == old(dst[..at]) + src[..i]
      invariant dst[at + i..] == old(dst[at + i..])
    {
      dst[at + i] := src[i];
    }
  }

  method ClinkMessage(typ: uint16, data: seq<byte>, wrapped: bool) returns (b: array<byte>)
    ensures fresh(b) && b[..] == Wire(typ, data, wrapped)
  {
    hide Le16, Le32, U16, U32;
    var extra := if wrapped then 8 else 0;
    b := new byte[6 + extra + |data|];
    Copy(b, 0, Le16(typ));
    Copy(b, 2, Le32(Low32(extra + |data|)));
    if wrapped {
      Copy(b, 6, Le32(Low32(|data|)));
      Copy(b, 10, Le32(8));
    }
    Copy(b, 6 + extra, data);
    assert b[..] == b[..6 + extra + |data|];
  }

  // ---- Reading ----

  datatype Frame = Frame(typ: uint16, payload: seq<byte>)

  function Encode(f: Frame): seq<byte> {
    Wire(f.typ, f.payload, false)
  }

  /** The whole frames at the start of `data`. */
  function Frames(data: seq<byte>): seq<Frame>
    decreases |data|
  {
    if |data| < 6 then []
    else
      var n := U32(data[2..6]);
      if 6 + n > |data| then []
      else [Frame(U16(data[..2]), data[6..6 + n])] + Frames(data[6 + n..])
  }

  function Concat(frames: seq<Frame>): seq<byte> {
    if frames == [] then [] else Encode(frames[0]) + Concat(frames[1..])
  }

  /** Frames whose length fits its field. */
  predicate Sized(frames: seq<Frame>) {
    forall i | 0 <= i < |frames| :: |frames[i].payload| < 0x1_0000_0000
  }

  lemma ReadOne(f: Frame, rest: seq<byte>)
    requires |f.payload| < 0x1_0000_0000
    ensures Frames(Encode(f) + rest) == [f] + Frames(rest)
  {
    hide Le16, Le32, U16, U32;
    var data := Encode(f) + rest;
    var n := |f.payload|;
    assert data[..2] == Le16(f.typ);
    assert data[2..6] == Le32(n);
    assert data[6..6 + n] == f.payload;
    assert data[6 + n..] == rest;
  }

  /** Reading inverts writing, whatever follows the frames. */
  lemma {:induction false} ReadInvertsWrite(frames: seq<Frame>, rest: seq<byte>)
    requires Sized(frames)
    ensures Frames(Concat(frames) + rest) == frames + Frames(rest)
  {
    hide Frames, Encode;
    if frames == [] {
      assert Concat(frames) + rest == rest;
    } else {
      var tail := Concat(frames[1..]) + rest;
      assert Concat(frames) + rest == Encode(frames[0]) + tail;
      ReadOne(frames[0], tail);
      ReadInvertsWrite(frames[1..], rest);
      assert frames == [frames[0]] + frames[1..];
    }
  }

  lemma HeadFrame(data: seq<byte>) returns (f: Frame, size: nat)
    requires |data| >= 6 && 6 + U32(data[2..6]) <= |data|
    ensures 6 <= size <= |data| && |f.payload| < 0x1_0000_0000
    ensures Encode(f) == data[..size] && Frames(data) == [f] + Frames(data[size..])
  {
    hide Le16, Le32, U16, U32;
    var n := U32(data[2..6]);
    size := 6 + n as int;
    f := Frame(U16(data[..2]), data[6..size]);
    LittleEndianUnique16(data[..2]);
    LittleEndianUnique32(data[2..6]);
    assert Encode(f) == data[..2] + data[2..6] + data[6..size];
  }

  /** On any bytes, the frames read are the beginning of the data, and what remains does not start with a whole one. */
  lemma {:induction false} ReadsAPrefix(data: seq<byte>)
    ensures Sized(Frames(data)) && Concat(Frames(data)) <= data
    ensures Frames(data[|Concat(Frames(data))|..]) == []
    decreases |data|
  {
    hide U16, U32, Encode;
    if |data| >= 6 && 6 + U32(data[2..6]) <= |data| {
      var f, size := HeadFrame(data);
      var tail := data[size..];
      ReadsAPrefix(tail);
      assert Frames(data)[1..] == Frames(tail);
      assert data == data[..size] + tail;
      assert data[|Concat(Frames(data))|..] == tail[|Concat(Frames(tail))|..];
    } else {
      assert Frames(data) == [] && data[0..] == data;
    }
  }

  /** No longer list of frames is a beginning of the data. */
  lemma ReadsTheLongest(data: seq<byte>, frames: seq<Frame>)
    requires Sized(frames) && Concat(frames) <= data
    ensures frames <= Frames(data)
  {
    hide Le16, Le32, U16, U32;
    ReadInvertsWrite(frames, data[|Concat(frames)|..]);
    assert data == Concat(frames) + data[|Concat(frames)|..];
  }

  /** A wrapped message is one frame whose payload starts with the length and the offset of the data. */
  lemma WrappedIsOneFrame(typ: uint16, data: seq<byte>)
    requires 8 + |data| < 0x1_0000_0000
    ensures
      var frames := Frames(Wire(typ, data, true));
      && |frames| == 1 && frames[0].typ == typ && |frames[0].payload| == 8 + |data|
      && U32(frames[0].payload[..4]) == |data|
      && U32(frames[0].payload[4..8]) == 8 && frames[0].payload[8..] == data
  {
    hide Le16, Le32, U16, U32;
    var f := Frame(typ, Le32(|data|) + Le32(8) + data);
    ReadOne(f, []);
    assert Encode(f) + [] == Wire(typ, data, true);
    assert f.payload[..4] == Le32(|data|) && f.payload[4..8] == Le32(8);
  }

  /** Two messages, octet by octet. */
  lemma MessageOctets()
    ensures Wire(0x0102, [7], false) == [2, 1, 1, 0, 0, 0, 7]
    ensures Wire(3, [7], true) == [3, 0, 9, 0, 0, 0, 1, 0, 0, 0, 8, 0, 0, 0, 7]
  {
  }

  // ---- Answering ----

  /** What the loop over a received message ends with. */
  datatype End = More | Activated | Preempted(typ: uint16)

  predicate PreemptionType(t: uint16) {
    t == 119 || t == 120 || t == 137
  }

  /** The messages that answer one frame; `login` answers a handshake. */
  function Answer(f: Frame, login: seq<seq<byte>>): seq<seq<byte>> {
    if f.typ == 103 then login + [Wire(104, [], false)]
    else if f.typ == 4 then [Wire(3, if |f.payload| > 12 then f.payload[..12] else f.payload, false)]
    else if f.typ == 3 && |f.payload| >= 8 then [Wire(1, f.payload[..4], false)]
    else []
  }

  predicate Stops(f: Frame, oneShot: bool) {
    PreemptionType(f.typ) || (f.typ == 103 && oneShot)
  }

  /** All answers to a list of frames, up to the first that stops the loop. */
  function Answers(frames: seq<Frame>, login: seq<seq<byte>>, oneShot: bool): seq<seq<byte>> {
    if frames == [] then []
    else if Stops(frames[0], oneShot) then Answer(frames[0], login)
    else Answer(frames[0], login) + Answers(frames[1..], login, oneShot)
  }

  function Ending(frames: seq<Frame>, oneShot: bool): End {
    if frames == [] then More
    else if PreemptionType(frames[0].typ) then Preempted(frames[0].typ)
    else if Stops(frames[0], oneShot) then Activated
    else Ending(frames[1..], oneShot)
  }

  lemma FrameAt(data: seq<byte>, off: nat)
    requires off + 6 <= |data|
    ensures var n := U32(data[off + 2..off + 6]);
            Frames(data[off..]) ==
              if off + 6 + n > |data| then []
              else [Frame(U16(data[off..off + 2]), data[off + 6..off + 6 + n])] + Frames(data[off + 6 + n..])
  {
    hide Le16, Le32, U16, U32;
    var here := data[off..];
    assert here[..2] == data[off..off + 2] && here[2..6] == data[off + 2..off + 6];
    var n := U32(here[2..6]);
    if 6 + n <= |here| {
      assert here[6..6 + n] == data[off + 6..off + 6 + n] && here[6 + n..] == data[off + 6 + n..];
    }
  }

  lemma NoAnswers(login: seq<seq<byte>>, oneShot: bool)
    ensures Answers([], login, oneShot) == [] && Ending([], oneShot) == More
  {
  }

  lemma AnswersStep(f: Frame, rest: seq<Frame>, login: seq<seq<byte>>, oneShot: bool)
    ensures Answers([f] + rest, login, oneShot) == Answer(f, login) + if Stops(f, oneShot) then []
      else Answers(rest, login, oneShot)
    ensures Ending([f] + rest, oneShot) ==
      if PreemptionType(f.typ) then Preempted(f.typ) else if Stops(f, oneShot) then Activated else Ending(rest, oneShot)
  {
    hide Answer, Stops;
    assert ([f] + rest)[1..] == rest;
  }

  /** The messages written for one frame, and whether the loop goes on. */
  method AnswerFrame(t: uint16, data: seq<byte>, login: seq<seq<byte>>, oneShot: bool)
    returns (writes: seq<seq<byte>>, end: End)
    ensures writes == Answer(Frame(t, data), login)
    ensures end == if PreemptionType(t) then Preempted(t) else if Stops(Frame(t, data), oneShot) then Activated
      else More
    ensures t == 103 ==> writes == login + [Wire(104, [], false)] && end == if oneShot then Activated else More
    ensures t == 4 ==>
      end == More && |writes| == 1
      && exists n :: 0 <= n <= |data| && n <= 12 && (n < 12 ==> n == |data|) && writes[0] == Wire(3, data[..n], false)
    ensures t == 3 ==> end == More && writes == if |data| < 8 then [] else [Wire(1, data[..4], false)]
    ensures t == 119 || t == 120 || t == 137 ==> writes == [] && end == Preempted(t)
    ensures t !in {3, 4, 103, 119, 120, 137} ==> writes == [] && end == More
  {
    writes, end := [], More;
    var payload := data;
    if t == 103 {
      writes := login + [Wire(104, [], false)];
      if oneShot {
        end := Activated;
      }
    } else if t == 4 {
      if |payload| > 12 {
        payload := payload[..12];
      }
      writes := [Wire(3, payload, false)];
      assert payload == data[..|payload|];
    } else if t == 3 {
      if |payload| >= 8 {
        writes := [Wire(1, payload[..4], false)];
      }
    } else if PreemptionType(t) {
      end := Preempted(t);
    }
  }

  /** The loop over one binary message. */
  method Receive(data: seq<byte>, login: seq<seq<byte>>, oneShot: bool) returns (writes: seq<seq<byte>>, end: End)
    ensures |data| >= 4 && data[..4] == [0x52, 0x45, 0x44, 0x51] ==> writes == [] && end == More
    ensures |data| < 4 || data[..4] != [0x52, 0x45, 0x44, 0x51] ==>
      writes == Answers(Frames(data), login, oneShot) && end == Ending(Frames(data), oneShot)
  {
    hide U16, U32, Frames, Answer, Answers, Ending;
    NoAnswers(login, oneShot);
    writes, end := [], More;
    if Challenge(data) {
      return; // The challenge has an answer of its own.
    }
    var off := 0;
    while off + 6 <= |data|
      invariant 0 <= off <= |data| && end == More
      invariant Answers(Frames(data), login, oneShot) == writes + Answers(Frames(data[off..]), login, oneShot)
      invariant Ending(Frames(data), oneShot) == Ending(Frames(data[off..]), oneShot)
      decreases |data| - off
    {
      FrameAt(data, off);
      var t := U16(data[off..off + 2]);
      var n := U32(data[off + 2..off + 6]);
      if off + 6 + n > |data| {
        return;
      }
      var payload := data[off + 6..off + 6 + n];
      AnswersStep(Frame(t, payload), Frames(data[off + 6 + n..]), login, oneShot);
      var answer;
      answer, end := AnswerFrame(t, payload, login, oneShot);
      writes := writes + answer;
      if end != More {
        return;
      }
      off := off + 6 + n;
    }
    NoFrame(data[off..]);
  }

  lemma NoFrame(data: seq<byte>)
    requires |data| < 6
    ensures Frames(data) == []
  {
  }

  /** Frame by frame: a message written as frames none of which stops the loop is answered as those frames are. */
  lemma {:induction false} AnswersDistribute(first: seq<Frame>, second: seq<Frame>, login: seq<seq<byte>>,
                                             oneShot: bool)
    requires forall i | 0 <= i < |first| :: !Stops(first[i], oneShot)
    ensures Answers(first + second, login, oneShot) == Answers(first, login, oneShot) + Answers(second, login, oneShot)
    ensures Ending(first + second, oneShot) == Ending(second, oneShot)
  {
    hide Le16, Le32, U16, U32;
    if first == [] {
      assert first + second == second;
    } else {
      AnswersDistribute(first[1..], second, login, oneShot);
      assert (first + second)[1..] == first[1..] + second;
    }
  }

  /** A frame that stops the loop is still answered, and nothing behind it is. */
  lemma AnswersStopAt(first: seq<Frame>, f: Frame, rest: seq<Frame>, login: seq<seq<byte>>, oneShot: bool)
    requires (forall i | 0 <= i < |first| :: !Stops(first[i], oneShot)) && Stops(f, oneShot)
    ensures Answers(first + ([f] + rest), login, oneShot) == Answers(first, login, oneShot) + Answer(f, login)
    ensures Ending(first + ([f] + rest), oneShot) == if f.typ == 103 then Activated else Preempted(f.typ)
  {
    AnswersDistribute(first, [f] + rest, login, oneShot);
    AnswersStep(f, rest, login, oneShot);
  }

  /** A message that is the concatenation of frames, without a challenge at its start, is read as those frames: the loop
      goes on exactly when none of them stops it, and its answers are theirs. */
  method ReceiveFrames(frames: seq<Frame>, login: seq<seq<byte>>, oneShot: bool)
    returns (writes: seq<seq<byte>>, end: End)
    requires Sized(frames) && !Challenge(Concat(frames))
    ensures writes == Answers(frames, login, oneShot)
    ensures end == More <==>
      forall i | 0 <= i < |frames| :: frames[i].typ !in {119, 120, 137} && (frames[i].typ == 103 ==> !oneShot)
  {
    hide Le16, Le32, U16, U32;
    ReadInvertsWrite(frames, []);
    assert Concat(frames) + [] == Concat(frames) && frames + Frames([]) == frames;
    writes, end := Receive(Concat(frames), login, oneShot);
    GoesOnIff(frames, oneShot);
  }

  lemma {:induction false} GoesOnIff(frames: seq<Frame>, oneShot: bool)
    ensures Ending(frames, oneShot) == More <==> forall i | 0 <= i < |frames| :: !Stops(frames[i], oneShot)
  {
    hide Le16, Le32, U16, U32;
    if frames != [] {
      GoesOnIff(frames[1..], oneShot);
      assert forall i | 0 < i < |frames| :: frames[1..][i - 1] == frames[i];
      assert forall i | 0 <= i < |frames[1..]| :: frames[1..][i] == frames[i + 1];
    }
  }

  // ---- The login message ----

  /** The fields, each with a closing NUL. */
  function Fields(values: seq<seq<byte>>): seq<byte> {
    if values == [] then [] else Fields(values[..|values| - 1]) + values[|values| - 1] + [0]
  }

  /** The table of lengths and offsets for fields that start at `HEADER`. */
  function Table(values: seq<seq<byte>>): (r: seq<byte>)
    ensures |r| == 8 * |values|
  {
    if values == [] then []
    else
      var init, last := values[..|values| - 1], values[|values| - 1];
      Table(init) + Le32(Low32(|last| + 1)) + Le32(Low32(HEADER + |Fields(init)|))
  }

  const HEADER := 36

  function LoginBody(desktop: uint32, values: seq<seq<byte>>): (r: seq<byte>)
    requires |values| == 4
    ensures |r| == HEADER + |Fields(values)|
  {
    Le32(desktop) + Table(values) + Fields(values)
  }

  lemma OneMore(values: seq<seq<byte>>, i: nat)
    requires i < |values|
    ensures Fields(values[..i + 1]) == Fields(values[..i]) + values[i] + [0]
    ensures |Fields(values[..i + 1])| <= |Fields(values)|
    ensures Table(values[..i + 1]) ==
      Table(values[..i]) + Le32(Low32(|values[i]| + 1)) + Le32(Low32(HEADER + |Fields(values[..i])|))
  {
    hide Le32;
    assert values[..i + 1][..i] == values[..i];
    FieldsGrow(values, i + 1);
  }

  /** The entry of one field in the table. */
  method PutEntry(body: array<byte>, at: nat, length: nat, offset: nat)
    requires at + 8 <= body.Length
    modifies body
    ensures body[..at + 8] == old(body[..at]) + Le32(Low32(length)) + Le32(Low32(offset))
    ensures body[at + 8..] == old(body[at + 8..])
  {
    hide Le32;
    ghost var before := body[..];
    Copy(body, at, Le32(Low32(length)));
    ghost var mid := body[..];
    Copy(body, at + 4, Le32(Low32(offset)));
    assert body[at + 8..] == mid[at + 8..] == mid[at + 4..][4..] == before[at + 4..][4..];
  }

  /** The value of one field; the array is still zero behind it. */
  method PutValue(body: array<byte>, offset: nat, value: seq<byte>)
    requires HEADER <= offset && offset + |value| < body.Length
    requires forall k | offset <= k < body.Length :: body[k] == 0
    modifies body
    ensures body[..offset] == old(body[..offset])
    ensures body[HEADER..offset + |value| + 1] == old(body[HEADER..offset]) + value + [0]
    ensures forall k | offset + |value| < k < body.Length :: body[k] == 0
  {
    ghost var before := body[..];
    var end := offset + |value|;
    Copy(body, offset, value);
    assert forall k | end <= k < body.Length :: body[k] == body[end..][k - end] == before[end..][k - end] == 0;
    assert body[..offset] == body[..end][..offset];
    assert body[HEADER..end + 1] == body[..end][HEADER..] + [body[end]];
  }

  method PutField(body: array<byte>, at: nat, offset: nat, value: seq<byte>)
    requires at + 8 <= HEADER <= offset && offset + |value| < body.Length
    requires forall k | offset <= k < body.Length :: body[k] == 0
    modifies body
    ensures body[..at + 8] == old(body[..at]) + Le32(Low32(|value| + 1)) + Le32(Low32(offset))
    ensures body[HEADER..offset + |value| + 1] == old(body[HEADER..offset]) + value + [0]
    ensures forall k | offset + |value| < k < body.Length :: body[k] == 0
  {
    hide Le32, Low32;
    ghost var before := body[..];
    PutEntry(body, at, |value| + 1, offset);
    ghost var mid := body[..];
    assert forall k | at + 8 <= k < |mid| ::
      mid[k] == mid[at + 8..][k - at - 8] == before[at + 8..][k - at - 8] == before[k];
    assert mid[HEADER..offset] == before[HEADER..offset];
    PutValue(body, offset, value);
    assert body[..at + 8] == body[..offset][..at + 8] == mid[..at + 8];
  }

  method MainClientLoginInfo(desktop: uint32, values: seq<seq<byte>>) returns (b: array<byte>)
    requires |values| == 4
    ensures fresh(b) && b[..] == Wire(112, LoginBody(desktop, values), false)
  {
    hide Le32, Table, Fields, Wire;
    var size := HEADER;
    NoFields();
    assert values[..0] == [] && values[..4] == values;
    for i := 0 to 4
      invariant size == HEADER + |Fields(values[..i])|
    {
      OneMore(values, i);
      size := size + |values[i]| + 1;
    }
    var body := new byte[size](_ => 0);
    Copy(body, 0, Le32(desktop));
    FillFields(body, values, desktop);
    assert body[..] == body[..HEADER] + body[HEADER..];
    b := ClinkMessage(112, body[..], false);
  }

  lemma NoFields()
    ensures Fields([]) == [] && Table([]) == []
  {
  }

  method FillFields(body: array<byte>, values: seq<seq<byte>>, ghost desktop: uint32)
    requires |values| == 4 && body.Length == HEADER + |Fields(values)| && body[..4] == Le32(desktop)
    requires forall k | 4 <= k < body.Length :: body[k] == 0
    modifies body
    ensures body[..HEADER] == Le32(desktop) + Table(values) && body[HEADER..] == Fields(values)
  {
    hide Le32, Table, Fields;
    var offset := HEADER;
    NoFields();
    assert values[..0] == [] && values[..4] == values;
    for i := 0 to 4
      invariant offset == HEADER + |Fields(values[..i])| <= body.Length
      invariant body[..4 + 8 * i] == Le32(desktop) + Table(values[..i])
      invariant body[HEADER..offset] == Fields(values[..i])
      invariant forall k | offset <= k < body.Length :: body[k] == 0
    {
      OneMore(values, i);
      PutField(body, 4 + 8 * i, offset, values[i]);
      offset := offset + |values[i]| + 1;
    }
  }

  lemma {:induction false} FieldsGrow(values: seq<seq<byte>>, i: nat)
    requires i <= |values|
    ensures |Fields(values[..i])| <= |Fields(values)|
    decreases |values|
  {
    hide Le16, Le32, U16, U32;
    if i == |values| {
      assert values[..i] == values;
    } else {
      var init := values[..|values| - 1];
      assert init[..i] == values[..i];
      FieldsGrow(init, i);
    }
  }

  lemma {:induction false} TableAt(values: seq<seq<byte>>, i: nat)
    requires i < |values|
    ensures Table(values)[8 * i..8 * i + 8] ==
      Le32(Low32(|values[i]| + 1)) + Le32(Low32(HEADER + |Fields(values[..i])|))
    decreases |values|
  {
    hide Le16, Le32, U16, U32;
    var n := |values| - 1;
    var init := values[..n];
    if i < n {
      TableAt(init, i);
      assert init[..i] == values[..i];
      assert Table(values)[8 * i..8 * i + 8] == Table(init)[8 * i..8 * i + 8];
    } else {
      assert values[..i] == init;
    }
  }

  lemma {:induction false} FieldAt(values: seq<seq<byte>>, i: nat)
    requires i < |values|
    ensures var start := |Fields(values[..i])|;
            var end := start + |values[i]| + 1;
            end == |Fields(values[..i + 1])| <= |Fields(values)| && Fields(values)[start..end] == values[i] + [0]
    decreases |values|
  {
    hide Le16, Le32, U16, U32;
    var n := |values| - 1;
    var init := values[..n];
    if i < n {
      FieldAt(init, i);
      assert init[..i] == values[..i] && init[..i + 1] == values[..i + 1];
      var start := |Fields(values[..i])|;
      var end := start + |values[i]| + 1;
      assert Fields(values)[start..end] == Fields(init)[start..end];
    } else {
      assert values[..i] == init && values[..i + 1] == values;
    }
  }

  function LengthAt(body: seq<byte>, i: nat): uint32
    requires i < 4 && |body| >= HEADER
  {
    U32(body[4 + 8 * i..8 + 8 * i])
  }

  function OffsetAt(body: seq<byte>, i: nat): uint32
    requires i < 4 && |body| >= HEADER
  {
    U32(body[8 + 8 * i..12 + 8 * i])
  }

  lemma EntryAt(desktop: uint32, values: seq<seq<byte>>, i: nat)
    requires |values| == 4 && i < 4
    requires HEADER + |Fields(values)| < 0x1_0000_0000
    ensures LengthAt(LoginBody(desktop, values), i) == |values[i]| + 1
    ensures OffsetAt(LoginBody(desktop, values), i) == HEADER + |Fields(values[..i])|
  {
    hide Le16, Le32, U16, U32;
    var body := LoginBody(desktop, values);
    TableAt(values, i);
    FieldAt(values, i);
    var entry := Table(values)[8 * i..8 * i + 8];
    assert body[4 + 8 * i..8 + 8 * i] == entry[..4];
    assert body[8 + 8 * i..12 + 8 * i] == entry[4..];
  }

  /** The login message is one frame that names the desktop first. */
  lemma LoginIsOneFrame(desktop: uint32, values: seq<seq<byte>>)
    requires |values| == 4 && HEADER + |Fields(values)| < 0x1_0000_0000
    ensures Frames(Wire(112, LoginBody(desktop, values), false)) == [Frame(112, LoginBody(desktop, values))]
    ensures U32(LoginBody(desktop, values)[..4]) == desktop
  {
    hide Le16, Le32, U16, U32;
    var f := Frame(112, LoginBody(desktop, values));
    ReadOne(f, []);
    assert Encode(f) + [] == Encode(f);
    assert LoginBody(desktop, values)[..4] == Le32(desktop);
  }

  /** The table of the login message finds every field again: the fields follow the header and each other without a gap
      up to the end, and each is its value and a NUL. */
  lemma LoginDecodes(desktop: uint32, values: seq<seq<byte>>, i: nat)
    requires |values| == 4 && i < 4
    requires HEADER + |Fields(values)| < 0x1_0000_0000
    ensures var body := LoginBody(desktop, values);
            var start, end := OffsetAt(body, i), OffsetAt(body, i) + LengthAt(body, i);
            && start == (if i == 0 then HEADER else OffsetAt(body, i - 1) + LengthAt(body, i - 1))
            && end <= |body| && (i == 3 ==> end == |body|)
            && body[start..end] == values[i] + [0]
  {
    hide Le16, Le32, U16, U32, LengthAt, OffsetAt, Table;
    var body := LoginBody(desktop, values);
    EntryAt(desktop, values, i);
    FieldAt(values, i);
    if i > 0 {
      EntryAt(desktop, values, i - 1);
      FieldAt(values, i - 1);
    }
    if i == 3 {
      assert values[..4] == values;
    }
    var start := |Fields(values[..i])|;
    var end := start + |values[i]| + 1;
    assert body[HEADER + start..HEADER + end] == Fields(values)[start..end];
  }
}
