/** Which byte streams the chunked decoder accepts: exactly the encodings, each
    refused at the first byte that no encoding has there. */
module ChunkGrammar {
  import opened Hir
  import opened Chunked

  // ----- digits -----

  const LOWER := "0123456789abcdef"
  const UPPER := "0123456789ABCDEF"

  /** The value of a digit is its place in either alphabet; no other byte has one. */
  lemma HexAlphabets(c: byte)
    ensures forall v {:trigger LOWER[v]} :: 0 <= v < 16 ==> HexVal(LOWER[v] as int) == v
    ensures forall v {:trigger UPPER[v]} :: 0 <= v < 16 ==> HexVal(UPPER[v] as int) == v
    ensures HexVal(c) == -1 <==> c as char !in LOWER && c as char !in UPPER
  {
    if HexVal(c) >= 0 {
      var v := HexVal(c);
      assert c as char == LOWER[v] || c as char == UPPER[v];
    }
  }

  // ----- encodings in progress -----

  /** How far the encoding of a chunk or of the ending has got. */
  datatype Part =
    | InSize(digits: seq<byte>)
    | InExt(digits: seq<byte>, rest: seq<byte>)
    | AfterCR(digits: seq<byte>, ext: Option<seq<byte>>)
    | InData(digits: seq<byte>, ext: Option<seq<byte>>, data: seq<byte>)
    | AfterData(digits: seq<byte>, ext: Option<seq<byte>>, data: seq<byte>)
    | InTrailer(digits: seq<byte>, ext: Option<seq<byte>>, lines: seq<seq<byte>>)
    | InLine(digits: seq<byte>, ext: Option<seq<byte>>, lines: seq<seq<byte>>, line: seq<byte>)
    | InLineCR(digits: seq<byte>, ext: Option<seq<byte>>, lines: seq<seq<byte>>, line: seq<byte>)
    | InEndCR(digits: seq<byte>, ext: Option<seq<byte>>, lines: seq<seq<byte>>)
    | Finished(ending: Ending)

  /** Whole chunks, then a part of the next thing. */
  datatype Place = Place(chunks: seq<Chunk>, part: Part)

  function Head(digits: seq<byte>, ext: Option<seq<byte>>): seq<byte> {
    digits + if ext.Some? then [SEMICOLON] + ext.value else []
  }

  function PartText(p: Part): seq<byte> {
    match p
    case InSize(digits) => digits
    case InExt(digits, rest) => Head(digits, Some(rest))
    case AfterCR(digits, ext) => Head(digits, ext) + [CR]
    case InData(digits, ext, data) => SizeLine(digits, ext) + data
    case AfterData(digits, ext, data) => SizeLine(digits, ext) + data + [CR]
    case InTrailer(digits, ext, lines) => SizeLine(digits, ext) + TrailerLines(lines)
    case InLine(digits, ext, lines, line) => SizeLine(digits, ext) + TrailerLines(lines) + line
    case InLineCR(digits, ext, lines, line) => SizeLine(digits, ext) + TrailerLines(lines) + line + [CR]
    case InEndCR(digits, ext, lines) => SizeLine(digits, ext) + TrailerLines(lines) + [CR]
    case Finished(e) => EncodeEnding(e)
  }

  function Written(p: Place): seq<byte> { EncodeChunks(p.chunks) + PartText(p.part) }

  function DataSoFar(p: Part): seq<byte> { if p.InData? || p.AfterData? then p.data else [] }

  function Output(p: Place): seq<byte> { AllData(p.chunks) + DataSoFar(p.part) }

  ghost predicate LinesOk(lines: seq<seq<byte>>) {
    forall i {:trigger lines[i]} :: 0 <= i < |lines| ==> lines[i] != [] && NoCR(lines[i])
  }

  ghost predicate Sized(digits: seq<byte>, ext: Option<seq<byte>>) {
    digits != [] && IsHex(digits) && HexValue(digits) < TWO_32 && (ext.Some? ==> NoCR(ext.value))
  }

  ghost predicate PartOk(p: Part) {
    match p
    case InSize(digits) => IsHex(digits) && HexValue(digits) < TWO_32
    case InExt(digits, rest) => Sized(digits, Some(rest))
    case AfterCR(digits, ext) => Sized(digits, ext)
    case InData(digits, ext, data) => Sized(digits, ext) && HexValue(digits) > 0 && |data| <= HexValue(digits)
    case AfterData(digits, ext, data) => Sized(digits, ext) && HexValue(digits) > 0 && |data| == HexValue(digits)
    case InTrailer(digits, ext, lines) => Sized(digits, ext) && HexValue(digits) == 0 && LinesOk(lines)
    case InLine(digits, ext, lines, line) =>
      Sized(digits, ext) && HexValue(digits) == 0 && LinesOk(lines) && line != [] && NoCR(line)
    case InLineCR(digits, ext, lines, line) =>
      Sized(digits, ext) && HexValue(digits) == 0 && LinesOk(lines) && line != [] && NoCR(line)
    case InEndCR(digits, ext, lines) => Sized(digits, ext) && HexValue(digits) == 0 && LinesOk(lines)
    case Finished(e) => EndingOk(e)
  }

  ghost predicate ChunksOk(cs: seq<Chunk>) { forall i {:trigger cs[i]} :: 0 <= i < |cs| ==> ChunkOk(cs[i]) }

  ghost predicate PlaceOk(p: Place) { ChunksOk(p.chunks) && PartOk(p.part) }

  ghost function MachineOf(p: Part): Machine
    requires PartOk(p)
  {
    match p
    case InSize(digits) => Machine(Size, HexValue(digits), digits != [])
    case InExt(digits, _) => Machine(Extension, HexValue(digits), true)
    case AfterCR(digits, _) => Machine(SizeLF, HexValue(digits), true)
    case InData(digits, _, data) =>
      Machine(if |data| == HexValue(digits) then DataCR else Data, HexValue(digits) - |data|, true)
    case AfterData(_, _, _) => Machine(DataLF, 0, true)
    case InTrailer(_, _, _) => Machine(Trailer, 0, true)
    case InLine(_, _, _, _) => Machine(TrailerLine, 0, true)
    case InLineCR(_, _, _, _) => Machine(TrailerLineLF, 0, true)
    case InEndCR(_, _, _) => Machine(TrailerLF, 0, true)
    case Finished(_) => Machine(Complete, 0, true)
  }

  // ----- one byte further -----

  function NextPart(p: Part, c: byte): Part {
    match p
    case InSize(digits) =>
      if HexVal(c) >= 0 then InSize(digits + [c]) else if c == CR then AfterCR(digits, None) else InExt(digits, [])
    case InExt(digits, rest) => if c == CR then AfterCR(digits, Some(rest)) else InExt(digits, rest + [c])
    case AfterCR(digits, ext) =>
      if IsHex(digits) && HexValue(digits) == 0 then InTrailer(digits, ext, []) else InData(digits, ext, [])
    case InData(digits, ext, data) =>
      if IsHex(digits) && |data| == HexValue(digits) then AfterData(digits, ext, data) else InData(digits, ext, data + [c])
    case AfterData(_, _, _) => InSize([])
    case InTrailer(digits, ext, lines) => if c == CR then InEndCR(digits, ext, lines) else InLine(digits, ext, lines, [c])
    case InLine(digits, ext, lines, line) => if c == CR then InLineCR(digits, ext, lines, line) else InLine(digits, ext, lines, line + [c])
    case InLineCR(digits, ext, lines, line) => InTrailer(digits, ext, lines + [line])
    case InEndCR(digits, ext, lines) => Finished(Ending(digits, ext, lines))
    case Finished(_) => p
  }

  lemma HexMore(digits: seq<byte>, c: byte)
    requires IsHex(digits) && HexVal(c) >= 0
    ensures IsHex(digits + [c]) && HexValue(digits + [c]) == HexValue(digits) * 16 + HexVal(c)
  {
    assert (digits + [c])[..|digits|] == digits;
  }

  lemma {:induction false} LinesMore(lines: seq<seq<byte>>, line: seq<byte>)
    ensures TrailerLines(lines + [line]) == TrailerLines(lines) + (line + [CR] + [LF])
  {
    if lines == [] {
      assert [] + [line] == [line] && [line][1..] == [];
      assert line + [CR] + [LF] + [] == line + [CR] + [LF];
    } else {
      LinesMore(lines[1..], line);
      assert (lines + [line])[1..] == lines[1..] + [line] && (lines + [line])[0] == lines[0];
      var head, rest := lines[0] + [CR] + [LF], TrailerLines(lines[1..]);
      assert head + (rest + (line + [CR] + [LF])) == (head + rest) + (line + [CR] + [LF]);
    }
  }

  lemma {:induction false} ChunksMore(cs: seq<Chunk>, c: Chunk)
    ensures EncodeChunks(cs + [c]) == EncodeChunks(cs) + EncodeChunk(c) && AllData(cs + [c]) == AllData(cs) + c.data
  {
    hide EncodeChunk;
    if cs == [] {
      assert [] + [c] == [c] && [c][1..] == [];
      assert EncodeChunk(c) + [] == EncodeChunk(c) && c.data + [] == c.data;
    } else {
      ChunksMore(cs[1..], c);
      assert (cs + [c])[1..] == cs[1..] + [c] && (cs + [c])[0] == cs[0];
      assert EncodeChunk(cs[0]) + (EncodeChunks(cs[1..]) + EncodeChunk(c)) == (EncodeChunk(cs[0]) + EncodeChunks(cs[1..])) + EncodeChunk(c);
      assert cs[0].data + (AllData(cs[1..]) + c.data) == (cs[0].data + AllData(cs[1..])) + c.data;
    }
  }

  /** A byte that is not refused goes on with the same encoding. */
  lemma PartAdvances(p: Part, c: byte)
    requires PartOk(p) && !p.Finished? && !p.AfterData? && Step(MachineOf(p), c).Go?
    ensures var q := NextPart(p, c);
      PartOk(q) && Step(MachineOf(p), c) == Go(MachineOf(q), if p.InData? && q.InData? then [c] else [])
    ensures PartText(NextPart(p, c)) == PartText(p) + [c]
    ensures DataSoFar(NextPart(p, c)) == DataSoFar(p) + Step(MachineOf(p), c).out
  {
    hide HexVal, HexValue, TrailerLines;
    PartGoes(p, c);
    PartGrows(p, c);
  }

  lemma PartGoes(p: Part, c: byte)
    requires PartOk(p) && !p.Finished? && !p.AfterData? && Step(MachineOf(p), c).Go?
    ensures var q := NextPart(p, c);
      PartOk(q) && Step(MachineOf(p), c) == Go(MachineOf(q), if p.InData? && q.InData? then [c] else [])
  {
    hide HexVal, HexValue, TrailerLines;
    if p.InSize? && HexVal(c) >= 0 { HexMore(p.digits, c); }
    if p.AfterCR? { assert NextPart(p, c).ext == p.ext; }
  }

  lemma PartGrows(p: Part, c: byte)
    requires PartOk(p) && !p.Finished? && !p.AfterData? && Step(MachineOf(p), c).Go?
    ensures PartText(NextPart(p, c)) == PartText(p) + [c]
  {
    hide HexVal, HexValue, TrailerLines;
    if p.InSize? || p.InExt? || p.AfterCR? || p.InData? {
      SizeGrows(p, c);
    } else {
      LinesGrow(p, c);
    }
  }

  lemma SizeGrows(p: Part, c: byte)
    requires PartOk(p) && (p.InSize? || p.InExt? || p.AfterCR? || p.InData?) && Step(MachineOf(p), c).Go?
    ensures PartText(NextPart(p, c)) == PartText(p) + [c]
  {
    hide HexVal, HexValue, TrailerLines;
    match p
    case InSize(digits) =>
      assert digits + ([SEMICOLON] + []) == digits + [SEMICOLON] && digits + [] == digits;
    case InExt(digits, rest) =>
      assert digits + ([SEMICOLON] + (rest + [c])) == (digits + ([SEMICOLON] + rest)) + [c];
    case AfterCR(digits, ext) =>
      NoLines();
      assert SizeLine(digits, ext) == Head(digits, ext) + [CR] + [LF];
      assert SizeLine(digits, ext) + [] == SizeLine(digits, ext);
    case InData(digits, ext, data) =>
      assert SizeLine(digits, ext) + (data + [c]) == (SizeLine(digits, ext) + data) + [c];
  }

  lemma LinesGrow(p: Part, c: byte)
    requires PartOk(p) && (p.InTrailer? || p.InLine? || p.InLineCR? || p.InEndCR?) && Step(MachineOf(p), c).Go?
    ensures PartText(NextPart(p, c)) == PartText(p) + [c]
  {
    hide HexVal, HexValue, TrailerLines, SizeLine;
    var before := SizeLine(p.digits, p.ext) + TrailerLines(p.lines);
    match p
    case InLine(digits, ext, lines, line) => assert before + (line + [c]) == (before + line) + [c];
    case InLineCR(digits, ext, lines, line) =>
      LinesMore(lines, line);
      var size, text := SizeLine(digits, ext), TrailerLines(lines);
      assert size + (text + (line + [CR] + [LF])) == (size + text + line + [CR]) + [LF];
    case _ =>
  }

  lemma NoLines()
    ensures TrailerLines([]) == []
  {
  }

  function NextPlace(p: Place, c: byte): Place {
    if p.part.AfterData? then Place(p.chunks + [Chunk(p.part.digits, p.part.ext, p.part.data)], InSize([]))
    else Place(p.chunks, NextPart(p.part, c))
  }

  lemma PlaceAdvances(p: Place, c: byte)
    requires PlaceOk(p) && !p.part.Finished? && Step(MachineOf(p.part), c).Go?
    ensures var q := NextPlace(p, c);
      && PlaceOk(q) && MachineOf(q.part) == Step(MachineOf(p.part), c).next
      && Written(q) == Written(p) + [c] && Output(q) == Output(p) + Step(MachineOf(p.part), c).out
  {
    hide EncodeChunks, AllData, PartText, HexVal, HexValue;
    if p.part.AfterData? {
      ChunkCloses(p, c);
    } else {
      PartAdvances(p.part, c);
      var q := NextPlace(p, c);
      assert EncodeChunks(p.chunks) + (PartText(p.part) + [c]) == (EncodeChunks(p.chunks) + PartText(p.part)) + [c];
      var out := Step(MachineOf(p.part), c).out;
      assert AllData(p.chunks) + (DataSoFar(p.part) + out) == (AllData(p.chunks) + DataSoFar(p.part)) + out;
    }
  }

  lemma ChunkCloses(p: Place, c: byte)
    requires PlaceOk(p) && p.part.AfterData? && Step(MachineOf(p.part), c).Go?
    ensures var q := NextPlace(p, c);
      && PlaceOk(q) && MachineOf(q.part) == Step(MachineOf(p.part), c).next
      && Written(q) == Written(p) + [c] && Output(q) == Output(p) + Step(MachineOf(p.part), c).out
  {
    hide HexVal, EncodeChunks, AllData, SizeLine;
    var k := Chunk(p.part.digits, p.part.ext, p.part.data);
    ChunksMore(p.chunks, k);
    var text := SizeLine(k.digits, k.ext) + k.data;
    assert EncodeChunk(k) == text + [CR] + [LF] && c == LF;
    assert EncodeChunks(p.chunks) + (text + [CR] + [LF]) + [] == (EncodeChunks(p.chunks) + (text + [CR])) + [LF];
    assert (AllData(p.chunks) + k.data) + [] == (AllData(p.chunks) + k.data);
    assert ChunkOk(k);
  }

  /** Bytes that are not refused are an encoding in progress. */
  lemma {:induction false} StepsPlace(s: seq<byte>) returns (p: Place)
    requires Steps(START, s).Some?
    ensures PlaceOk(p) && Written(p) == s && Steps(START, s).value == (MachineOf(p.part), Output(p))
    decreases |s|
  {
    hide Step, Written, Output, PlaceOk;
    if s == [] {
      p := Place([], InSize([]));
      StartPlace();
    } else {
      var c := s[|s| - 1];
      var q := StepsPlace(s[..|s| - 1]);
      OkPart(q);
      assert !q.part.Finished?;
      PlaceAdvances(q, c);
      p := NextPlace(q, c);
      assert s == s[..|s| - 1] + [c];
    }
  }

  lemma StartPlace()
    ensures PlaceOk(Place([], InSize([]))) && Written(Place([], InSize([]))) == [] && Output(Place([], InSize([]))) == []
    ensures MachineOf(InSize([])) == START
  {
  }

  lemma OkPart(p: Place)
    requires PlaceOk(p)
    ensures PartOk(p.part) && (MachineOf(p.part).state.Complete? <==> p.part.Finished?)
  {
  }

  // ----- what is accepted -----

  ghost predicate IsEncoding(s: seq<byte>, cs: seq<Chunk>, e: Ending) {
    ChunksOk(cs) && EndingOk(e) && s == EncodeChunks(cs) + EncodeEnding(e)
  }

  /** Decoding consumes what leads to where it stops. */
  lemma {:induction false} DecodeIsSteps(m: Machine, s: seq<byte>)
    requires Valid(m)
    ensures var o := Decode(m, s);
      && o.used <= |s| && Leads(m, s[..o.used], o.last, o.out) && Valid(o.last)
      && (o.verdict.Done? <==> o.last.state.Complete?)
      && (o.verdict.More? ==> o.used == |s|)
      && (o.verdict.Error? ==> o.used < |s| && Step(o.last, s[o.used]).Reject?)
    decreases |s|
  {
    hide Step, Leads;
    if !m.state.Complete? && s != [] && Step(m, s[0]).Go? {
      var Go(next, out) := Step(m, s[0]);
      StepValid(m, s[0]);
      DecodeIsSteps(next, s[1..]);
      var o := Decode(next, s[1..]);
      LeadsNone(m);
      LeadsSnoc(m, [], m, [], s[0]);
      assert [] + [s[0]] == [s[0]] && [] + out == out;
      LeadsJoin(m, [s[0]], next, out, s[1..][..o.used], o.last, o.out);
      assert s[..o.used + 1] == [s[0]] + s[1..][..o.used];
    } else {
      LeadsNone(m);
    }
  }

  /** A stream is accepted with n bytes used and some output exactly when its first
      n bytes encode that output. */
  lemma AcceptsExactly(s: seq<byte>, n: nat, out: seq<byte>)
    requires n <= |s|
    ensures (Decode(START, s).verdict.Done? && Decode(START, s).used == n && Decode(START, s).out == out) <==>
            exists cs, e :: IsEncoding(s[..n], cs, e) && AllData(cs) == out
  {
    hide Decode, EncodeChunks, EncodeEnding, AllData, ChunkOk, EndingOk;
    var o := Decode(START, s);
    DecodeIsSteps(START, s);
    if o.verdict.Done? && o.used == n && o.out == out {
      var cs, e := StepsEncode(s[..n]);
      assert IsEncoding(s[..n], cs, e) && AllData(cs) == out;
    }
    if cs, e :| IsEncoding(s[..n], cs, e) && AllData(cs) == out {
      RoundTrip(cs, e, s[n..]);
      assert s[..n] + s[n..] == s;
    }
  }

  lemma StepsEncode(s: seq<byte>) returns (cs: seq<Chunk>, e: Ending)
    requires Steps(START, s).Some? && Steps(START, s).value.0.state.Complete?
    ensures IsEncoding(s, cs, e) && Steps(START, s).value.1 == AllData(cs)
  {
    hide EncodeChunks, AllData, ChunkOk, EndingOk, EncodeEnding;
    var p := StepsPlace(s);
    OkPart(p);
    assert AllData(p.chunks) + [] == AllData(p.chunks);
    return p.chunks, p.part.ending;
  }

  // ----- what is refused -----

  /** The beginning of some encoding. */
  ghost predicate Viable(s: seq<byte>) { exists rest, cs, e :: IsEncoding(s + rest, cs, e) }

  lemma OneByte(m: Machine, c: byte)
    requires Valid(m) && !m.state.Complete? && Step(m, c).Go?
    ensures Leads(m, [c], Step(m, c).next, Step(m, c).out)
  {
    LeadsNone(m);
    LeadsSnoc(m, [], m, [], c);
    assert [] + [c] == [c] && [] + Step(m, c).out == Step(m, c).out;
  }

  /** How far a machine is from the end of the shortest completion, by phase. */
  function Phase(s: State): nat {
    match s
    case Complete => 0
    case TrailerLF => 1
    case Trailer => 2
    case TrailerLineLF => 3
    case TrailerLine => 4
    case Size => 9
    case DataLF => 10
    case DataCR => 11
    case Data => 12
    case SizeLF => 13
    case Extension => 14
  }

  function Rank(m: Machine): nat {
    if m.state.Size? then if m.remaining == 0 then (if m.hasDigits then 6 else 7) else 15
    else if m.state.SizeLF? then if m.remaining == 0 then 5 else 13
    else if m.state.Extension? then 14
    else Phase(m.state)
  }

  /** Every machine that decoding reaches can be completed. */
  lemma {:induction false} Completes(m: Machine) returns (rest: seq<byte>, last: Machine, out: seq<byte>)
    requires Valid(m) && (m.state.Size? && !m.hasDigits ==> m.remaining == 0)
    ensures Leads(m, rest, last, out) && last.state.Complete?
    decreases Rank(m), if m.state.Data? then m.remaining else 0
  {
    if m.state.Complete? {
      LeadsNone(m);
      return [], m, [];
    }
    var c: byte := match m.state
      case Size => if m.hasDigits then CR else LOWER[0] as int
      case SizeLF => LF
      case DataLF => LF
      case TrailerLF => LF
      case TrailerLineLF => LF
      case _ => CR;
    OneByte(m, c);
    StepValid(m, c);
    var next := Step(m, c).next;
    var more, end, data := Completes(next);
    LeadsJoin(m, [c], next, Step(m, c).out, more, end, data);
    return [c] + more, end, Step(m, c).out + data;
  }

  /** What is not refused can be completed, and what can be completed is not. */
  lemma ViableExactly(s: seq<byte>)
    ensures Steps(START, s).Some? <==> Viable(s)
  {
    hide EncodeChunks, AllData, ChunkOk, EndingOk, EncodeEnding, Step;
    if Steps(START, s).Some? {
      var p := StepsPlace(s);
      OkPart(p);
      SizeStart(p.part);
      var (m, out) := Steps(START, s).value;
      var rest, last, more := Completes(m);
      LeadsJoin(START, s, m, out, rest, last, more);
      var cs, e := StepsEncode(s + rest);
      assert IsEncoding(s + rest, cs, e);
    }
    if rest, cs, e :| IsEncoding(s + rest, cs, e) {
      ChunksLead(cs);
      EndingLeads(e);
      LeadsJoin(START, EncodeChunks(cs), START, AllData(cs), EncodeEnding(e), Machine(Complete, 0, true), []);
      PrefixSteps(START, s, rest);
    }
  }

  lemma SizeStart(p: Part)
    requires PartOk(p)
    ensures var m := MachineOf(p); Valid(m) && (m.state.Size? && !m.hasDigits ==> m.remaining == 0)
  {
  }

  lemma {:induction false} PrefixSteps(m: Machine, s: seq<byte>, rest: seq<byte>)
    requires Valid(m) && Steps(m, s + rest).Some?
    ensures Steps(m, s).Some?
    decreases |rest|
  {
    hide Step;
    if rest == [] {
      assert s + rest == s;
    } else {
      assert (s + rest)[..|s + rest| - 1] == s + rest[..|rest| - 1];
      PrefixSteps(m, s, rest[..|rest| - 1]);
    }
  }

  /** An error comes at the first byte after which no encoding begins so; while
      more is wanted, one does. */
  lemma RefusesExactly(s: seq<byte>)
    ensures var o := Decode(START, s);
      && (o.verdict.Error? ==> o.used < |s| && Viable(s[..o.used]) && !Viable(s[..o.used + 1]))
      && (o.verdict.More? ==> o.used == |s| && Viable(s))
  {
    hide Decode, Step, Viable;
    var o := Decode(START, s);
    DecodeIsSteps(START, s);
    if o.verdict.Error? {
      ViableExactly(s[..o.used]);
      ViableExactly(s[..o.used + 1]);
      assert s[..o.used + 1] == s[..o.used] + [s[o.used]];
      StepsLast(START, s[..o.used], s[o.used]);
    }
    if o.verdict.More? {
      assert s[..o.used] == s;
      ViableExactly(s);
    }
  }
}
