/** The 64-bit word a compiled handler returns. The lowering packs a terminator
    into an immediate, code generation unpacks the immediate and packs the word,
    and the runtime unpacks the word again. */
module Abi {
  import opened Hir

  /** What the runtime reads out of a word. */
  datatype Reply =
    | Answer(status: int, body: int, headers: int)
    | Proxy(upstream: int)
    | Suspend(kind: int, payload: int, next: int)
    | Unknown

  const TWO_16 := 0x1_0000
  const TWO_24 := 0x100_0000
  const TWO_40 := 0x100_0000_0000
  const TWO_48 := 0x1_0000_0000_0000
  const TWO_56 := 0x100_0000_0000_0000

  // ----- lowering: immediates -----

  function StatusImm(code: i32, body: u16, headers: u16): int { code % TWO_16 + body * TWO_16 + headers * TWO_32 }

  function YieldImm(kind: int, payload: u32, next: int): int { kind * TWO_48 + next * TWO_32 + payload }

  // ----- code generation: words -----

  function StatusWord(imm: int): int {
    (imm % TWO_16) * 0x100 + (imm / TWO_16 % TWO_16) * TWO_24 + (imm / TWO_32 % TWO_16) * TWO_40
  }

  /** A status computed at run time keeps its low 16 bits. */
  function StatusValueWord(code: int): int { (code % TWO_16) * 0x100 }

  function ForwardWord(upstream: u16): int { 1 + upstream * TWO_24 }

  function YieldWord(imm: int): int {
    var kind := imm / TWO_48 % 0x100;
    2 + (imm % TWO_32) * 0x100 + (imm / TWO_32 % TWO_16) * TWO_40 + (if kind == 0 then KindCode(Timer) else kind) * TWO_56
  }

  // ----- runtime -----

  function Decode(word: int): Reply {
    var action, status := word % 0x100, word / 0x100 % TWO_16;
    var upstream, next, kind := word / TWO_24 % TWO_16, word / TWO_40 % TWO_16, word / TWO_56 % 0x100;
    if action == 0 then Answer(status, upstream, next)
    else if action == 1 then Proxy(upstream)
    else if action == 2 then Suspend(kind, status + upstream * TWO_16, next)
    else Unknown
  }

  /** The reply a term stands for. */
  function ReplyOf(t: Term, locals: map<nat, Value>): Reply {
    match t
    case Status(code, body, headers) => Answer(code % TWO_16, body, headers)
    case StatusOf(ref) => Answer((if ref in locals && locals[ref].Int? then locals[ref].i else 0) % TWO_16, 0, 0)
    case Forward(upstream) => Proxy(upstream)
  }

  function TermWord(t: Term, locals: map<nat, Value>): int {
    match t
    case Status(code, body, headers) => StatusWord(StatusImm(code, body, headers))
    case StatusOf(ref) => StatusValueWord(if ref in locals && locals[ref].Int? then locals[ref].i else 0)
    case Forward(upstream) => ForwardWord(upstream)
  }

  // ----- nothing is lost on the way -----

  lemma MulMono(a: int, b: int, n: int)
    requires a <= b && 0 <= n
    ensures a * n <= b * n
  {
  }

  lemma Peel(x: int, low: int, rest: int, n: int)
    requires 0 <= low < n && x == low + rest * n
    ensures x / n == rest && x % n == low
  {
    var q := x / n;
    assert x == q * n + x % n;
    if q > rest {
      MulMono(rest + 1, q, n);
    } else if q < rest {
      MulMono(q + 1, rest, n);
    }
  }

  /** The five fields of a word, read back. */
  lemma WordFields(word: int, action: int, status: int, upstream: int, next: int, kind: int)
    requires 0 <= action < 0x100 && 0 <= status < TWO_16 && 0 <= upstream < TWO_16 && 0 <= next < TWO_16 && 0 <= kind < 0x100
    requires word == action + status * 0x100 + upstream * TWO_24 + next * TWO_40 + kind * TWO_56
    ensures word % 0x100 == action && word / 0x100 % TWO_16 == status && word / TWO_24 % TWO_16 == upstream
    ensures word / TWO_40 % TWO_16 == next && word / TWO_56 % 0x100 == kind
  {
    var w3 := next + kind * TWO_16;
    var w2 := upstream + w3 * TWO_16;
    var w1 := status + w2 * TWO_16;
    Peel(word, action, w1, 0x100);
    Peel(w1, status, w2, TWO_16);
    Peel(word, action + status * 0x100, w2, TWO_24);
    Peel(w2, upstream, w3, TWO_16);
    Peel(word, action + status * 0x100 + upstream * TWO_24, w3, TWO_40);
    Peel(w3, next, kind, TWO_16);
    Peel(word, action + status * 0x100 + upstream * TWO_24 + next * TWO_40, kind, TWO_56);
  }

  lemma StatusImmFields(code: i32, body: u16, headers: u16)
    ensures var imm := StatusImm(code, body, headers);
      imm % TWO_16 == code % TWO_16 && imm / TWO_16 % TWO_16 == body && imm / TWO_32 % TWO_16 == headers
  {
    var low, imm := code % TWO_16, StatusImm(code, body, headers);
    var rest := body + headers * TWO_16;
    Peel(imm, low, rest, TWO_16);
    Peel(rest, body, headers, TWO_16);
    Peel(imm, low + body * TWO_16, headers, TWO_32);
  }

  lemma YieldImmFields(kind: int, payload: u32, next: int)
    requires 0 < kind < 0x100 && 0 <= next < TWO_16
    ensures var imm := YieldImm(kind, payload, next);
      imm % TWO_32 == payload && imm / TWO_32 % TWO_16 == next && imm / TWO_48 % 0x100 == kind
  {
    var imm, rest := YieldImm(kind, payload, next), next + kind * TWO_16;
    Peel(imm, payload, rest, TWO_32);
    Peel(rest, next, kind, TWO_16);
    Peel(imm, payload + next * TWO_32, kind, TWO_48);
  }

  lemma TermRoundTrip(t: Term, locals: map<nat, Value>)
    ensures Decode(TermWord(t, locals)) == ReplyOf(t, locals)
  {
    match t
    case Status(code, body, headers) =>
      StatusImmFields(code, body, headers);
      hide StatusImm;
      WordFields(TermWord(t, locals), 0, code % TWO_16, body, headers, 0);
    case StatusOf(ref) =>
      var code := if ref in locals && locals[ref].Int? then locals[ref].i else 0;
      WordFields(TermWord(t, locals), 0, code % TWO_16, 0, 0, 0);
    case Forward(upstream) =>
      WordFields(TermWord(t, locals), 1, 0, upstream, 0, 0);
  }

  lemma YieldRoundTrip(kind: int, payload: u32, next: int)
    requires 0 < kind < 0x100 && 0 <= next < TWO_16
    ensures Decode(YieldWord(YieldImm(kind, payload, next))) == Suspend(kind, payload, next)
  {
    YieldImmFields(kind, payload, next);
    hide YieldImm;
    WordFields(YieldWord(YieldImm(kind, payload, next)), 2, payload % TWO_16, payload / TWO_16, next, kind);
  }

  /** The words themselves: the action in byte 0, the status in bytes 1 and 2, the
      upstream in 3 and 4, the next state in 5 and 6, the kind in byte 7. */
  lemma WordLayout(code: i32, body: u16, headers: u16, upstream: u16, kind: int, payload: u32, next: int)
    requires 0 < kind < 0x100 && 0 <= next < 0x1_0000
    ensures StatusWord(StatusImm(code, body, headers)) == 0 + (code % 0x1_0000) * 0x100 + body * 0x100_0000 + headers * 0x100_0000_0000
    ensures ForwardWord(upstream) == 1 + upstream * 0x100_0000
    ensures YieldWord(YieldImm(kind, payload, next)) == 2 + payload * 0x100 + next * 0x100_0000_0000 + kind * 0x100_0000_0000_0000
  {
    StatusImmFields(code, body, headers);
    YieldImmFields(kind, payload, next);
  }
}
