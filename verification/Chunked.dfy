/** Chunked transfer decoding (section 7.1 of RFC 9112): the incremental parser,
    the machine that takes one byte at a time, and encodings. */
module Chunked {
  import opened Hir

  const CR: byte := 13
  const LF: byte := 10
  const SEMICOLON: byte := 59

  datatype State =
    | Size | SizeLF | Extension | Data | DataCR | DataLF
    | Trailer | TrailerLF | TrailerLine | TrailerLineLF | Complete

  function HexVal(c: byte): int {
    if '0' as int <= c <= '9' as int then c - '0' as int
    else if 'a' as int <= c <= 'f' as int then 10 + c - 'a' as int
    else if 'A' as int <= c <= 'F' as int then 10 + c - 'A' as int
    else -1
  }

  // ----- one byte at a time -----

  datatype Machine = Machine(state: State, remaining: u32, hasDigits: bool)

  const START := Machine(Size, 0, false)

  /** A rejected byte, or the next state and the decoded output. */
  datatype Move = Reject | Go(next: Machine, out: seq<byte>)

  predicate Valid(m: Machine) { m.state.Data? ==> m.remaining > 0 }

  function Expect(m: Machine, c: byte, wanted: byte, next: Machine): Move { if c == wanted then Go(next, []) else Reject }

  function Step(m: Machine, c: byte): Move
    requires !m.state.Complete? && Valid(m)
  {
    match m.state
    case Size =>
      var v := HexVal(c);
      if v >= 0 then
        if m.remaining > 0x0FFF_FFFF then Reject else Go(Machine(Size, m.remaining * 16 + v, true), [])
      else if c == CR && m.hasDigits then Go(m.(state := SizeLF), [])
      else if c == SEMICOLON && m.hasDigits then Go(m.(state := Extension), [])
      else Reject
    case SizeLF => Expect(m, c, LF, m.(state := if m.remaining == 0 then Trailer else Data))
    case Extension => Go(if c == CR then m.(state := SizeLF) else m, [])
    case Data => Go(m.(state := if m.remaining == 1 then DataCR else Data, remaining := m.remaining - 1), [c])
    case DataCR => Expect(m, c, CR, m.(state := DataLF))
    case DataLF => Expect(m, c, LF, START)
    case Trailer => Go(m.(state := if c == CR then TrailerLF else TrailerLine), [])
    case TrailerLF => Expect(m, c, LF, m.(state := Complete))
    case TrailerLine => Go(if c == CR then m.(state := TrailerLineLF) else m, [])
    case TrailerLineLF => Expect(m, c, LF, m.(state := Trailer))
  }

  datatype Verdict = More | Done | Error

  /** Everything there is to observe about decoding a stream. */
  datatype Outcome = Outcome(out: seq<byte>, last: Machine, used: nat, verdict: Verdict)

  function Shift(out: seq<byte>, used: nat, o: Outcome): Outcome { o.(out := out + o.out, used := used + o.used) }

  /** Takes bytes until the final line, a rejected byte or the end of the stream. */
  function Decode(m: Machine, s: seq<byte>): Outcome
    requires Valid(m)
    decreases |s|
  {
    if m.state.Complete? then Outcome([], m, 0, Done)
    else if s == [] then Outcome([], m, 0, More)
    else match Step(m, s[0])
      case Reject => Outcome([], m, 0, Error)
      case Go(next, out) => Shift(out, 1, Decode(next, s[1..]))
  }

  /** All of s, when no byte of it is rejected and it does not go on after the end. */
  function Steps(m: Machine, s: seq<byte>): (r: Option<(Machine, seq<byte>)>)
    requires Valid(m)
    ensures r.Some? ==> Valid(r.value.0)
    decreases |s|
  {
    if s == [] then Some((m, []))
    else
      var before := Steps(m, s[..|s| - 1]);
      if before.None? || before.value.0.state.Complete? then None
      else match Step(before.value.0, s[|s| - 1])
        case Reject => None
        case Go(next, out) => Some((next, before.value.1 + out))
  }

  /** The bytes s take m to m' and decode to `out`. */
  ghost predicate Leads(m: Machine, s: seq<byte>, m': Machine, out: seq<byte>) {
    Valid(m) && Steps(m, s) == Some((m', out))
  }

  lemma LeadsSnoc(m: Machine, s: seq<byte>, m': Machine, out: seq<byte>, c: byte)
    requires Leads(m, s, m', out) && !m'.state.Complete?
    ensures Valid(m') && (Step(m', c).Go? ==> Leads(m, s + [c], Step(m', c).next, out + Step(m', c).out))
  {
    assert (s + [c])[..|s + [c]| - 1] == s;
  }

  lemma LeadsQuiet(m: Machine, s: seq<byte>, m': Machine, out: seq<byte>, c: byte)
    requires Leads(m, s, m', out) && !m'.state.Complete? && Valid(m') && Step(m', c).Go? && Step(m', c).out == []
    ensures Leads(m, s + [c], Step(m', c).next, out)
  {
    LeadsSnoc(m, s, m', out, c);
    assert out + [] == out;
  }

  lemma LeadsNone(m: Machine)
    requires Valid(m)
    ensures Leads(m, [], m, [])
  {
  }

  lemma {:induction false} LeadsJoin(m: Machine, a: seq<byte>, m1: Machine, out1: seq<byte>, b: seq<byte>, m2: Machine, out2: seq<byte>)
    requires Leads(m, a, m1, out1) && Leads(m1, b, m2, out2)
    ensures Leads(m, a + b, m2, out1 + out2)
    decreases |b|
  {
    if b == [] {
      assert a + b == a && out1 + out2 == out1;
    } else {
      var c, init := b[|b| - 1], b[..|b| - 1];
      var (mid, out) := Steps(m1, init).value;
      LeadsJoin(m, a, m1, out1, init, mid, out);
      LeadsSnoc(m, a + init, mid, out1 + out, c);
      assert (a + init) + [c] == a + b;
      assert out2 == out + Step(mid, c).out;
      assert (out1 + out) + Step(mid, c).out == out1 + out2;
    }
  }

  lemma JoinQuiet(m: Machine, a: seq<byte>, m1: Machine, b: seq<byte>, m2: Machine)
    requires Leads(m, a, m1, []) && Leads(m1, b, m2, [])
    ensures Leads(m, a + b, m2, [])
  {
    LeadsJoin(m, a, m1, [], b, m2, []);
    ghost var none: seq<byte> := [];
    assert none + none == none;
  }

  lemma DecodeStep(m: Machine, s: seq<byte>)
    requires Valid(m) && !m.state.Complete? && s != [] && Step(m, s[0]).Go?
    ensures Decode(m, s) == Shift(Step(m, s[0]).out, 1, Decode(Step(m, s[0]).next, s[1..]))
  {
  }

  /** Decoding goes on from wherever the first k bytes lead. */
  lemma {:induction false} DecodeAfter(m: Machine, s: seq<byte>, k: nat)
    requires Valid(m) && k <= |s| && Steps(m, s[..k]).Some?
    ensures var (m', out) := Steps(m, s[..k]).value; Decode(m, s) == Shift(out, k, Decode(m', s[k..]))
    decreases k
  {
    hide Step, Decode;
    if k > 0 {
      assert s[..k][..k - 1] == s[..k - 1];
      DecodeAfter(m, s, k - 1);
      var (m1, out1) := Steps(m, s[..k - 1]).value;
      assert s[k - 1..][1..] == s[k..] && s[k - 1..][0] == s[k - 1];
      DecodeStep(m1, s[k - 1..]);
    } else {
      assert s[0..] == s;
    }
  }

  // ----- the parser -----

  datatype Status = NeedMore | HasData | IsDone | IsError

  class Parser {
    var state: State
    var remaining: u32
    var hasDigits: bool

    function Now(): Machine
      reads this
    {
      Machine(state, remaining, hasDigits)
    }

    constructor ()
      ensures Now() == START
    {
      state, remaining, hasDigits := Size, 0, false;
    }

    /** One byte outside the data of a chunk. */
    method Advance(c: byte) returns (ok: bool)
      requires Valid(Now()) && !state.Data? && !state.Complete?
      modifies this
      ensures ok == Step(old(Now()), c).Go?
      ensures Now() == if ok then Step(old(Now()), c).next else old(Now())
      ensures ok ==> Step(old(Now()), c).out == []
    {
      ok := true;
      match state
      case Size =>
        var v := HexVal(c);
        if v >= 0 {
          if remaining > 0x0FFF_FFFF { return false; }
          remaining, hasDigits := remaining * 16 + v, true;
        } else if c == CR {
          if !hasDigits { return false; }
          state := SizeLF;
        } else if c == SEMICOLON {
          if !hasDigits { return false; }
          state := Extension;
        } else {
          return false;
        }
      case SizeLF =>
        if c != LF { return false; }
        state := if remaining == 0 then Trailer else Data;
      case Extension =>
        if c == CR { state := SizeLF; }
      case DataCR =>
        if c != CR { return false; }
        state := DataLF;
      case DataLF =>
        if c != LF { return false; }
        state, remaining, hasDigits := Size, 0, false;
      case Trailer =>
        state := if c == CR then TrailerLF else TrailerLine;
      case TrailerLF =>
        if c != LF { return false; }
        state := Complete;
      case TrailerLine =>
        if c == CR { state := TrailerLineLF; }
      case TrailerLineLF =>
        if c != LF { return false; }
        state := Trailer;
    }

    /** Consumes input up to the next stretch of data, the end, an error or the
        end of the input. What was consumed is what the byte machine consumes;
        data is never empty; non-empty input makes progress or stops. */
    method Feed(input: seq<byte>) returns (status: Status, consumed: nat, start: nat, len: nat)
      requires Valid(Now())
      modifies this
      ensures Valid(Now()) && consumed <= |input| && start + len <= consumed
      ensures Leads(old(Now()), input[..consumed], Now(), input[start..start + len])
      ensures status.HasData? <==> len > 0
      ensures status.NeedMore? ==> consumed == |input| && (input != [] ==> !state.Complete?)
      ensures status.IsDone? ==> state.Complete?
      ensures status.HasData? ==> !state.Complete?
      ensures status.IsError? ==> consumed < |input| && !state.Complete? && Step(Now(), input[consumed]).Reject?
      ensures input != [] ==> consumed > 0 || status.IsDone? || status.IsError?
    {
      hide Step, Leads;
      ghost var m := Now();
      var pos := 0;
      LeadsNone(m);
      while pos < |input| && !state.Data?
        invariant pos <= |input| && Valid(Now())
        invariant Leads(m, input[..pos], Now(), input[0..0])
        invariant pos > 0 ==> !state.Complete?
        decreases |input| - pos
      {
        if state.Complete? { return IsDone, pos, 0, 0; }
        assert input[..pos + 1] == input[..pos] + [input[pos]];
        ghost var was := Now();
        StepValid(was, input[pos]);
        var ok := Advance(input[pos]);
        if !ok { return IsError, pos, 0, 0; }
        LeadsQuiet(m, input[..pos], was, input[0..0], input[pos]);
        pos := pos + 1;
        if state.Complete? { return IsDone, pos, 0, 0; }
      }
      if pos == |input| { return NeedMore, pos, 0, 0; }
      var avail := |input| - pos;
      var n := if avail < remaining then avail else remaining;
      ghost var was := Now();
      remaining := remaining - n;
      if remaining == 0 { state := DataCR; }
      DataSteps(was, input[pos..pos + n]);
      LeadsJoin(m, input[..pos], was, input[0..0], input[pos..pos + n], Now(), input[pos..pos + n]);
      assert input[..pos + n] == input[..pos] + input[pos..pos + n];
      assert input[0..0] + input[pos..pos + n] == input[pos..pos + n];
      return HasData, pos + n, pos, n;
    }
  }

  lemma StepValid(m: Machine, c: byte)
    requires Valid(m) && !m.state.Complete?
    ensures Step(m, c).Go? ==> Valid(Step(m, c).next)
  {
  }

  /** Data bytes pass through; the last one of the chunk ends the data. */
  lemma {:induction false} DataSteps(m: Machine, d: seq<byte>)
    requires m.state.Data? && |d| <= m.remaining && m.remaining > 0
    ensures Leads(m, d, m.(state := if |d| == m.remaining then DataCR else Data, remaining := m.remaining - |d|), d)
    decreases |d|
  {
    if d == [] {
      LeadsNone(m);
    } else {
      var n := |d| - 1;
      DataSteps(m, d[..n]);
      assert d == d[..n] + [d[n]];
      LeadsSnoc(m, d[..n], m.(remaining := m.remaining - n), d[..n], d[n]);
    }
  }

  // ----- buffering does not matter -----

  function JoinFrom(pieces: seq<seq<byte>>, i: nat): seq<byte>
    requires i <= |pieces|
    decreases |pieces| - i
  {
    if i == |pieces| then [] else pieces[i] + JoinFrom(pieces, i + 1)
  }

  lemma ShiftTwice(out: seq<byte>, used: nat, more: seq<byte>, k: nat, o: Outcome)
    ensures Shift(out, used, Shift(more, k, o)) == Shift(out + more, used + k, o)
  {
    assert out + (more + o.out) == (out + more) + o.out;
  }

  lemma DecodeLeads(m: Machine, a: seq<byte>, m': Machine, out: seq<byte>, b: seq<byte>)
    requires Leads(m, a, m', out)
    ensures Valid(m') && Decode(m, a + b) == Shift(out, |a|, Decode(m', b))
  {
    assert (a + b)[..|a|] == a && (a + b)[|a|..] == b;
    DecodeAfter(m, a + b, |a|);
  }

  /** What is left to decode when `rest` is still to come. */
  ghost predicate OnTrack(o: Outcome, out: seq<byte>, used: nat, m: Machine, rest: seq<byte>) {
    Valid(m) && o == Shift(out, used, Decode(m, rest))
  }

  lemma Proceed(o: Outcome, out: seq<byte>, used: nat, m: Machine, a: seq<byte>, b: seq<byte>, m': Machine, more: seq<byte>)
    requires OnTrack(o, out, used, m, a + b) && Leads(m, a, m', more)
    ensures OnTrack(o, out + more, used + |a|, m', b)
  {
    hide Decode;
    DecodeLeads(m, a, m', more, b);
    ShiftTwice(out, used, more, |a|, Decode(m', b));
  }

  lemma Stopped(o: Outcome, out: seq<byte>, used: nat, m: Machine, rest: seq<byte>)
    requires OnTrack(o, out, used, m, rest)
    ensures m.state.Complete? ==> o == Outcome(out, m, used, Done)
    ensures !m.state.Complete? && rest == [] ==> o == Outcome(out, m, used, More)
    ensures !m.state.Complete? && rest != [] && Step(m, rest[0]).Reject? ==> o == Outcome(out, m, used, Error)
  {
    assert out + [] == out;
  }

  /** Feeds each piece to the parser until it is used up. However the stream is
      cut into pieces, output, final state, position and verdict are those of
      the byte machine on the whole stream. */
  method DecodePieces(parser: Parser, pieces: seq<seq<byte>>) returns (out: seq<byte>, used: nat, verdict: Verdict)
    requires Valid(parser.Now()) && !parser.state.Complete?
    modifies parser
    ensures Outcome(out, parser.Now(), used, verdict) == Decode(old(parser.Now()), JoinFrom(pieces, 0))
  {
    hide Leads, Step, Decode, OnTrack;
    ghost var o := Decode(parser.Now(), JoinFrom(pieces, 0));
    out, used := [], 0;
    AtStart(o, parser.Now(), JoinFrom(pieces, 0));
    for i := 0 to |pieces|
      invariant Valid(parser.Now()) && !parser.state.Complete?
      invariant OnTrack(o, out, used, parser.Now(), JoinFrom(pieces, i))
    {
      var piece := pieces[i];
      var pos := 0;
      ghost var later := JoinFrom(pieces, i + 1);
      assert piece[0..] == piece;
      while pos < |piece|
        invariant pos <= |piece| && Valid(parser.Now()) && !parser.state.Complete?
        invariant OnTrack(o, out, used, parser.Now(), piece[pos..] + later)
      {
        ghost var m := parser.Now();
        var input := piece[pos..];
        var status, consumed, start, len := parser.Feed(input);
        assert input == input[..consumed] + input[consumed..] && input[consumed..] == piece[pos + consumed..];
        assert input + later == input[..consumed] + (piece[pos + consumed..] + later);
        Proceed(o, out, used, m, input[..consumed], piece[pos + consumed..] + later, parser.Now(), input[start..start + len]);
        out, used, pos := out + input[start..start + len], used + consumed, pos + consumed;
        Stopped(o, out, used, parser.Now(), piece[pos..] + later);
        if status.IsDone? { return out, used, Done; }
        if status.IsError? {
          assert (piece[pos..] + later)[0] == input[consumed];
          return out, used, Error;
        }
      }
      assert piece[pos..] + later == later;
    }
    Stopped(o, out, used, parser.Now(), []);
    verdict := More;
  }

  lemma AtStart(o: Outcome, m: Machine, s: seq<byte>)
    requires Valid(m) && o == Decode(m, s)
    ensures OnTrack(o, [], 0, m, s)
  {
    assert [] + o.out == o.out;
  }

  // ----- sizes -----

  predicate IsHex(ds: seq<byte>) { forall i {:trigger ds[i]} :: 0 <= i < |ds| ==> HexVal(ds[i]) >= 0 }

  function HexValue(ds: seq<byte>): nat
    requires IsHex(ds)
  {
    if ds == [] then 0 else HexValue(ds[..|ds| - 1]) * 16 + HexVal(ds[|ds| - 1])
  }

  lemma DigitStep(v: u32, has: bool, c: byte)
    requires HexVal(c) >= 0
    ensures HexVal(c) < 16
    ensures v * 16 + HexVal(c) < TWO_32 ==> Step(Machine(Size, v, has), c) == Go(Machine(Size, v * 16 + HexVal(c), true), [])
    ensures v * 16 + HexVal(c) >= TWO_32 ==> Step(Machine(Size, v, has), c) == Reject
  {
  }

  lemma StepsLast(m: Machine, s: seq<byte>, c: byte)
    requires Valid(m)
    ensures Steps(m, s).None? ==> Steps(m, s + [c]).None?
    ensures Steps(m, s).Some? && !Steps(m, s).value.0.state.Complete? && Step(Steps(m, s).value.0, c).Reject? ==> Steps(m, s + [c]).None?
  {
    assert (s + [c])[..|s + [c]| - 1] == s;
  }

  /** Where the digits ds, of value v, lead. */
  ghost predicate SizeRead(ds: seq<byte>, v: nat) {
    if v < TWO_32 then Leads(START, ds, Machine(Size, v, ds != []), []) else Steps(START, ds).None?
  }

  lemma SizeReadMore(ds: seq<byte>, v: nat, c: byte)
    requires SizeRead(ds, v) && HexVal(c) >= 0
    ensures SizeRead(ds + [c], v * 16 + HexVal(c))
  {
    hide Step, HexVal, Steps;
    StepsLast(START, ds, c);
    if v < TWO_32 {
      DigitStep(v, ds != [], c);
      if v * 16 + HexVal(c) < TWO_32 { LeadsQuiet(START, ds, Machine(Size, v, ds != []), [], c); }
    }
  }

  /** A size is accepted exactly when it fits 32 bits, however many digits it is
      written with. */
  lemma {:induction false} SizeFits(ds: seq<byte>)
    requires IsHex(ds)
    ensures HexValue(ds) < TWO_32 ==> Leads(START, ds, Machine(Size, HexValue(ds), ds != []), [])
    ensures HexValue(ds) >= TWO_32 ==> Steps(START, ds).None?
  {
    hide Leads, Steps;
    if ds == [] {
      LeadsNone(START);
    } else {
      var init, c := ds[..|ds| - 1], ds[|ds| - 1];
      assert ds == init + [c];
      SizeFits(init);
      SizeReadMore(init, HexValue(init), c);
    }
  }

  /** A size that does not fit is an error within its digits, whatever follows. */
  lemma {:induction false} SizeOverflows(ds: seq<byte>, rest: seq<byte>)
    requires IsHex(ds) && HexValue(ds) >= TWO_32
    ensures var o := Decode(START, ds + rest); o.verdict.Error? && o.out == [] && o.used < |ds|
    decreases |ds|
  {
    var init, c := ds[..|ds| - 1], ds[|ds| - 1];
    assert ds + rest == init + ([c] + rest);
    if HexValue(init) >= TWO_32 {
      SizeOverflows(init, [c] + rest);
    } else {
      SizeFits(init);
      var m := Machine(Size, HexValue(init), init != []);
      DecodeLeads(START, init, m, [], [c] + rest);
      assert Step(m, c).Reject?;
    }
  }

  // ----- round trip -----

  predicate NoCR(s: seq<byte>) { CR !in s }

  datatype Chunk = Chunk(digits: seq<byte>, ext: Option<seq<byte>>, data: seq<byte>)

  predicate SizeOk(digits: seq<byte>, ext: Option<seq<byte>>, n: nat) {
    digits != [] && IsHex(digits) && HexValue(digits) == n && (ext.Some? ==> NoCR(ext.value))
  }

  predicate ChunkOk(c: Chunk) { 0 < |c.data| < TWO_32 && SizeOk(c.digits, c.ext, |c.data|) }

  /** What ends a body: a zero size and trailer lines. */
  datatype Ending = Ending(digits: seq<byte>, ext: Option<seq<byte>>, trailers: seq<seq<byte>>)

  predicate EndingOk(e: Ending) {
    SizeOk(e.digits, e.ext, 0) && forall i {:trigger e.trailers[i]} :: 0 <= i < |e.trailers| ==> e.trailers[i] != [] && NoCR(e.trailers[i])
  }

  function SizeLine(digits: seq<byte>, ext: Option<seq<byte>>): seq<byte> {
    digits + (if ext.Some? then [SEMICOLON] + ext.value else []) + [CR] + [LF]
  }

  function EncodeChunk(c: Chunk): seq<byte> { SizeLine(c.digits, c.ext) + c.data + [CR] + [LF] }

  function EncodeChunks(cs: seq<Chunk>): seq<byte> { if cs == [] then [] else EncodeChunk(cs[0]) + EncodeChunks(cs[1..]) }

  function AllData(cs: seq<Chunk>): seq<byte> { if cs == [] then [] else cs[0].data + AllData(cs[1..]) }

  function TrailerLines(ts: seq<seq<byte>>): seq<byte> { if ts == [] then [] else ts[0] + [CR] + [LF] + TrailerLines(ts[1..]) }

  function EncodeEnding(e: Ending): seq<byte> { SizeLine(e.digits, e.ext) + TrailerLines(e.trailers) + [CR] + [LF] }

  /** One byte that decodes to nothing. */
  lemma Quiet(m: Machine, s: seq<byte>, m1: Machine, out: seq<byte>, c: byte, m2: Machine)
    requires Leads(m, s, m1, out) && Valid(m1) && !m1.state.Complete? && Step(m1, c) == Go(m2, [])
    ensures Leads(m, s + [c], m2, out)
  {
    LeadsQuiet(m, s, m1, out, c);
  }

  /** Bytes skipped in a state that stays the same. */
  lemma {:induction false} Skips(m: Machine, s: seq<byte>)
    requires (m.state.Extension? || m.state.TrailerLine?) && NoCR(s)
    ensures Leads(m, s, m, [])
    decreases |s|
  {
    if s == [] {
      LeadsNone(m);
    } else {
      var init, c := s[..|s| - 1], s[|s| - 1];
      assert s == init + [c];
      Skips(m, init);
      Quiet(m, init, m, [], c, m);
    }
  }

  lemma SizeLineLeads(digits: seq<byte>, ext: Option<seq<byte>>, n: nat)
    requires SizeOk(digits, ext, n) && n < TWO_32
    ensures Leads(START, SizeLine(digits, ext), Machine(if n == 0 then Trailer else Data, n, true), [])
  {
    hide Leads;
    SizeFits(digits);
    var size := Machine(Size, n, true);
    var line := digits;
    if ext.Some? {
      Quiet(START, digits, size, [], SEMICOLON, size.(state := Extension));
      Skips(size.(state := Extension), ext.value);
      JoinQuiet(START, digits + [SEMICOLON], size.(state := Extension), ext.value, size.(state := Extension));
      line := digits + [SEMICOLON] + ext.value;
      assert line == digits + ([SEMICOLON] + ext.value);
      Quiet(START, line, size.(state := Extension), [], CR, size.(state := SizeLF));
    } else {
      assert line == digits + [];
      Quiet(START, line, size, [], CR, size.(state := SizeLF));
    }
    Quiet(START, line + [CR], size.(state := SizeLF), [], LF, Machine(if n == 0 then Trailer else Data, n, true));
  }

  lemma ChunkLeads(c: Chunk)
    requires ChunkOk(c)
    ensures Leads(START, EncodeChunk(c), START, c.data)
  {
    hide Leads, SizeLine;
    var line := SizeLine(c.digits, c.ext);
    var n := |c.data|;
    SizeLineLeads(c.digits, c.ext, n);
    DataSteps(Machine(Data, n, true), c.data);
    LeadsJoin(START, line, Machine(Data, n, true), [], c.data, Machine(DataCR, 0, true), c.data);
    assert [] + c.data == c.data;
    Quiet(START, line + c.data, Machine(DataCR, 0, true), c.data, CR, Machine(DataLF, 0, true));
    Quiet(START, line + c.data + [CR], Machine(DataLF, 0, true), c.data, LF, START);
  }

  lemma {:induction false} ChunksLead(cs: seq<Chunk>)
    requires forall i {:trigger cs[i]} :: 0 <= i < |cs| ==> ChunkOk(cs[i])
    ensures Leads(START, EncodeChunks(cs), START, AllData(cs))
  {
    hide Leads, EncodeChunk, ChunkOk;
    if cs == [] {
      LeadsNone(START);
    } else {
      ChunkLeads(cs[0]);
      ChunksLead(cs[1..]);
      LeadsJoin(START, EncodeChunk(cs[0]), START, cs[0].data, EncodeChunks(cs[1..]), START, AllData(cs[1..]));
    }
  }

  lemma TrailerLeads(t: seq<byte>, m: Machine)
    requires t != [] && NoCR(t) && m.state.Trailer?
    ensures Leads(m, t + [CR] + [LF], m, [])
  {
    hide Leads;
    var line := m.(state := TrailerLine);
    LeadsNone(m);
    assert [] + [t[0]] == [t[0]];
    Quiet(m, [], m, [], t[0], line);
    Skips(line, t[1..]);
    JoinQuiet(m, [t[0]], line, t[1..], line);
    assert t == [t[0]] + t[1..];
    Quiet(m, t, line, [], CR, m.(state := TrailerLineLF));
    Quiet(m, t + [CR], m.(state := TrailerLineLF), [], LF, m);
  }

  lemma {:induction false} TrailersLead(ts: seq<seq<byte>>, m: Machine)
    requires m.state.Trailer? && forall i {:trigger ts[i]} :: 0 <= i < |ts| ==> ts[i] != [] && NoCR(ts[i])
    ensures Leads(m, TrailerLines(ts), m, [])
  {
    hide Leads, NoCR;
    if ts == [] {
      LeadsNone(m);
    } else {
      TrailerLeads(ts[0], m);
      TrailersLead(ts[1..], m);
      JoinQuiet(m, ts[0] + [CR] + [LF], m, TrailerLines(ts[1..]), m);
    }
  }

  lemma EndingLeads(e: Ending)
    requires EndingOk(e)
    ensures Leads(START, EncodeEnding(e), Machine(Complete, 0, true), [])
  {
    hide Leads, SizeLine, TrailerLines;
    var m := Machine(Trailer, 0, true);
    var text := SizeLine(e.digits, e.ext) + TrailerLines(e.trailers);
    SizeLineLeads(e.digits, e.ext, 0);
    TrailersLead(e.trailers, m);
    JoinQuiet(START, SizeLine(e.digits, e.ext), m, TrailerLines(e.trailers), m);
    Quiet(START, text, m, [], CR, m.(state := TrailerLF));
    Quiet(START, text + [CR], m.(state := TrailerLF), [], LF, m.(state := Complete));
  }

  /** Decoding an encoded body gives its data and stops right after it. */
  lemma RoundTrip(cs: seq<Chunk>, e: Ending, rest: seq<byte>)
    requires EndingOk(e) && forall i {:trigger cs[i]} :: 0 <= i < |cs| ==> ChunkOk(cs[i])
    ensures var text := EncodeChunks(cs) + EncodeEnding(e);
      Decode(START, text + rest) == Outcome(AllData(cs), Machine(Complete, 0, true), |text|, Done)
  {
    hide Leads, EncodeChunks, EncodeEnding, AllData, ChunkOk, EndingOk;
    var text, last := EncodeChunks(cs) + EncodeEnding(e), Machine(Complete, 0, true);
    ChunksLead(cs);
    EndingLeads(e);
    LeadsJoin(START, EncodeChunks(cs), START, AllData(cs), EncodeEnding(e), last, []);
    DecodeLeads(START, text, last, AllData(cs) + [], rest);
    assert AllData(cs) + [] + [] == AllData(cs);
  }

  function HexDigit(v: nat): byte
    requires v < 16
  {
    if v < 10 then '0' as int + v else 'a' as int + v - 10
  }

  function ToHex(n: nat): seq<byte> { if n < 16 then [HexDigit(n)] else ToHex(n / 16) + [HexDigit(n % 16)] }

  /** Every size has a spelling, so every body can be encoded. */
  lemma {:induction false} ToHexSpells(n: nat)
    ensures ToHex(n) != [] && IsHex(ToHex(n)) && HexValue(ToHex(n)) == n
  {
    if n >= 16 {
      ToHexSpells(n / 16);
      assert ToHex(n)[..|ToHex(n)| - 1] == ToHex(n / 16);
    } else {
      assert ToHex(n)[..0] == [];
    }
  }
}
