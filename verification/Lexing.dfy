/** Tokens of the native project format: how they are written and how the reader takes them apart
    (`Reader` in `src/project/persistence.cpp`). A `char` stands for one byte of the file. */
module Lexing {
  import opened Wrappers
  import opened RationalTimes
  import opened Model

  // ----- characters

  predicate Space(c: char) {
    c == ' ' || '\t' as int <= c as int <= '\r' as int
  }

  predicate Digit(c: char) {
    '0' <= c <= '9'
  }

  predicate AllDigits(s: string) {
    forall i :: 0 <= i < |s| ==> Digit(s[i])
  }

  predicate NoSpace(s: string) {
    s != "" && forall i :: 0 <= i < |s| ==> !Space(s[i])
  }

  type Blank = c: char | Space(c) witness ' '

  type Word = s: string | NoSpace(s) witness "END"

  // ----- writing

  function Digits(n: nat): string {
    if n < 10 then [('0' as int + n) as char] else Digits(n / 10) + [('0' as int + n % 10) as char]
  }

  function Decimal(n: int): string {
    if n < 0 then "-" + Digits(-n) else Digits(n)
  }

  /** `std::quoted`: quotes and backslashes are escaped. */
  function Escaped(text: string): string {
    if text == "" then ""
    else (if text[0] == '"' || text[0] == '\\' then ['\\', text[0]] else [text[0]]) + Escaped(text[1..])
  }

  /** A document as a list of tokens, each with the blank that follows it. */
  datatype Doc =
    | Done
    | Tag(word: Word, blank: Blank, tail: Doc)
    | Num(value: int, blank: Blank, tail: Doc)
    | Text(text: string, blank: Blank, tail: Doc)

  function Render(doc: Doc): string {
    match doc
    case Done => ""
    case Tag(word, blank, tail) => word + [blank] + Render(tail)
    case Num(value, blank, tail) => Decimal(value) + [blank] + Render(tail)
    case Text(text, blank, tail) => "\"" + Escaped(text) + "\"" + [blank] + Render(tail)
  }

  // ----- reading

  function SkipSpace(s: string): string {
    if s != "" && Space(s[0]) then SkipSpace(s[1..]) else s
  }

  /** The length of the leading run without blanks. */
  function TokenLength(s: string): (n: nat)
    ensures n <= |s|
  {
    if s == "" || Space(s[0]) then 0 else 1 + TokenLength(s[1..])
  }

  datatype State = State(rest: string, remaining: nat)

  datatype Parsed<+T> = Bad | Good(value: T, next: State) {
    predicate IsFailure() { Bad? }

    function PropagateFailure<U>(): Parsed<U>
      requires Bad?
    {
      Bad
    }

    function Extract(): (T, State)
      requires Good?
    {
      (value, next)
    }
  }

  /** `stream >> token`. */
  function Token(st: State): Parsed<string> {
    var s := SkipSpace(st.rest);
    var n := TokenLength(s);
    if n == 0 then Bad else Good(s[..n], st.(rest := s[n..]))
  }

  function Expect(st: State, expected: string): Parsed<()> {
    var (token, next) :- Token(st);
    if token == expected then Good((), next) else Bad
  }

  function NatValue(digits: string): nat
    requires AllDigits(digits)
  {
    if digits == "" then 0
    else NatValue(digits[..|digits| - 1]) * 10 + (digits[|digits| - 1] as int - '0' as int)
  }

  /** `std::from_chars` over a whole token: digits, a minus sign only for signed types, and the type's range. */
  function FromChars(token: string, low: int, high: int): Option<int> {
    var negative := low < 0 && token != "" && token[0] == '-';
    var digits := if negative then token[1..] else token;
    if digits == "" || !AllDigits(digits) then None
    else
      var value: int := if negative then 0 - NatValue(digits) else NatValue(digits);
      if low <= value <= high then Some(value) else None
  }

  function Number(st: State, low: int, high: int): Parsed<int> {
    var (token, next) :- Token(st);
    var value := FromChars(token, low, high);
    if value.None? then Bad else Good(value.value, next)
  }

  const U32: int := 0xffff_ffff
  const U64: int := 0xffff_ffff_ffff_ffff

  function Unsigned32(st: State): (r: Parsed<uint32>) {
    NumberInRange(st, 0, U32);
    var (value, next) :- Number(st, 0, U32);
    Good(value, next)
  }

  function Unsigned64(st: State): (r: Parsed<uint64>) {
    NumberInRange(st, 0, U64);
    var (value, next) :- Number(st, 0, U64);
    Good(value, next)
  }

  function Signed64(st: State): (r: Parsed<int64>) {
    NumberInRange(st, -MAX - 1, MAX);
    var (value, next) :- Number(st, -MAX - 1, MAX);
    Good(value, next)
  }

  lemma NumberInRange(st: State, low: int, high: int)
    ensures Number(st, low, high).Good? ==> low <= Number(st, low, high).value <= high
  {
  }

  /** `count`: the record budget pays for every announced record before it is read. */
  function Count(st: State): Parsed<nat> {
    var (value, next) :- Unsigned64(st);
    if value > next.remaining then Bad else Good(value, next.(remaining := next.remaining - value))
  }

  /** The text up to the closing quote, with escapes undone. */
  function Unquoted(s: string): Option<(string, string)> {
    if s == "" then None
    else if s[0] == '"' then Some(("", s[1..]))
    else
      var escaped := s[0] == '\\';
      if escaped && |s| == 1 then None
      else
        var rest := Unquoted(s[if escaped then 2 else 1..]);
        if rest.None? then None
        else Some(([if escaped then s[1] else s[0]] + rest.value.0, rest.value.1))
  }

  function Quoted(st: State): Parsed<string> {
    var s := SkipSpace(st.rest);
    if s == "" || s[0] != '"' then Bad
    else
      var text := Unquoted(s[1..]);
      if text.None? || |text.value.0| > MAX_TEXT then Bad
      else Good(text.value.0, st.(rest := text.value.1))
  }

  // ----- what was written is what is read

  /** What `isspace` takes for a blank: space, tab, newline, vertical tab, form feed, carriage return. */
  const BLANKS: set<char> := {' ', '\t', '\n', '\U{0B}', '\U{0C}', '\r'}

  lemma SpaceIsBlank(c: char)
    ensures Space(c) <==> c in BLANKS
  {
    if Space(c) && c != ' ' { assert c as int in {9, 10, 11, 12, 13}; }
  }

  /** Skipping passes all leading blanks and nothing else. */
  lemma {:induction false} Skipped(s: string) returns (k: nat)
    ensures k <= |s| && SkipSpace(s) == s[k..]
    ensures (forall i :: 0 <= i < k ==> s[i] in BLANKS) && (k < |s| ==> s[k] !in BLANKS)
  {
    if s != "" { SpaceIsBlank(s[0]); }
    if s != "" && Space(s[0]) {
      var n := Skipped(s[1..]);
      k := n + 1;
    } else {
      k := 0;
    }
  }

  /** A token is all that stands before the next blank. */
  lemma {:induction false} TokenStops(s: string)
    ensures var n := TokenLength(s);
            (forall i :: 0 <= i < n ==> s[i] !in BLANKS) && (n < |s| ==> s[n] in BLANKS)
  {
    if s != "" {
      SpaceIsBlank(s[0]);
      TokenStops(s[1..]);
    }
  }

  /** A token ends where the text ends or a blank follows. */
  predicate Parted(rest: string) {
    rest == "" || Space(rest[0])
  }

  /** The text spells a document: its tokens in order, with any blanks in front of, between and behind them. */
  ghost predicate At(s: string, doc: Doc)
    decreases doc
  {
    var t := SkipSpace(s);
    match doc
    case Done => t == ""
    case Tag(word, _, tail) => exists rest :: t == word + rest && Parted(rest) && At(rest, tail)
    case Num(value, _, tail) => exists rest :: t == Decimal(value) + rest && Parted(rest) && At(rest, tail)
    case Text(text, _, tail) => exists rest :: t == "\"" + Escaped(text) + "\"" + rest && At(rest, tail)
  }

  lemma {:induction false} DigitsAreDigits(n: nat)
    ensures Digits(n) != "" && AllDigits(Digits(n)) && NatValue(Digits(n)) == n
  {
    if n >= 10 {
      DigitsAreDigits(n / 10);
      var all := Digits(n);
      assert all[..|all| - 1] == Digits(n / 10);
    }
  }

  lemma DecimalReads(n: int, low: int, high: int)
    requires low <= n <= high && low <= 0
    ensures FromChars(Decimal(n), low, high) == Some(n)
    ensures NoSpace(Decimal(n)) && Decimal(n)[0] != '"'
  {
    hide Digits, NatValue;
    DigitsAreDigits(if n < 0 then -n else n);
    if n < 0 { assert Decimal(n)[1..] == Digits(-n); }
  }

  lemma {:induction false} TokenEnds(token: string, rest: string)
    requires (forall i :: 0 <= i < |token| ==> !Space(token[i])) && Parted(rest)
    ensures TokenLength(token + rest) == |token|
  {
    var s := token + rest;
    if token == "" {
      assert s == rest;
    } else {
      assert s[1..] == token[1..] + rest;
      TokenEnds(token[1..], rest);
    }
  }

  lemma {:induction false} UnquotedEscaped(text: string, rest: string)
    ensures Unquoted(Escaped(text) + "\"" + rest) == Some((text, rest))
  {
    var s := Escaped(text) + "\"" + rest;
    if text == "" {
      assert s == "\"" + rest;
    } else {
      UnquotedEscaped(text[1..], rest);
      var head := if text[0] == '"' || text[0] == '\\' then ['\\', text[0]] else [text[0]];
      assert s == head + (Escaped(text[1..]) + "\"" + rest);
      assert s[|head|..] == Escaped(text[1..]) + "\"" + rest;
      assert text == [text[0]] + text[1..];
    }
  }

  /** Nothing is skipped in front of what is not a blank. */
  lemma NothingSkipped(token: string, rest: string)
    requires token != "" && !Space(token[0])
    ensures SkipSpace(token + rest) == token + rest && token + rest != ""
  {
  }

  /** What is written spells the document. */
  lemma {:induction false} RenderSpells(doc: Doc)
    ensures At(Render(doc), doc)
    decreases doc, 0
  {
    hide Decimal, Escaped, SkipSpace, At;
    match doc
    case Done => NothingSpells();
    case Tag(word, blank, tail) =>
      SpellsAfterBlank(blank, tail);
      TagSpells(word, blank, tail);
    case Num(value, blank, tail) =>
      SpellsAfterBlank(blank, tail);
      NumSpells(value, blank, tail);
    case Text(text, blank, tail) =>
      SpellsAfterBlank(blank, tail);
      TextSpells(text, blank, tail);
  }

  lemma NothingSpells()
    ensures At(Render(Done), Done)
  {
  }

  lemma TagSpells(word: Word, blank: Blank, tail: Doc)
    requires At([blank] + Render(tail), tail)
    ensures At(Render(Tag(word, blank, tail)), Tag(word, blank, tail))
  {
    hide SkipSpace;
    var rest := [blank] + Render(tail);
    assert Render(Tag(word, blank, tail)) == word + rest;
    NothingSkipped(word, rest);
    assert Parted(rest);
  }

  lemma NumSpells(value: int, blank: Blank, tail: Doc)
    requires At([blank] + Render(tail), tail)
    ensures At(Render(Num(value, blank, tail)), Num(value, blank, tail))
  {
    hide SkipSpace, Decimal;
    var rest := [blank] + Render(tail);
    DecimalReads(value, if value < 0 then value else 0, if value < 0 then 0 else value);
    assert Render(Num(value, blank, tail)) == Decimal(value) + rest;
    NothingSkipped(Decimal(value), rest);
    assert Parted(rest);
  }

  lemma TextSpells(text: string, blank: Blank, tail: Doc)
    requires At([blank] + Render(tail), tail)
    ensures At(Render(Text(text, blank, tail)), Text(text, blank, tail))
  {
    hide SkipSpace, Escaped;
    var token, rest := "\"" + Escaped(text) + "\"", [blank] + Render(tail);
    assert Render(Text(text, blank, tail)) == token + rest;
    NothingSkipped(token, rest);
  }

  lemma {:induction false} SpellsAfterBlank(blank: Blank, tail: Doc)
    ensures At([blank] + Render(tail), tail)
    decreases tail, 1
  {
    RenderSpells(tail);
    assert ([blank] + Render(tail))[1..] == Render(tail);
  }

  lemma TokenReads(st: State, token: string, rest: string)
    requires NoSpace(token) && SkipSpace(st.rest) == token + rest && Parted(rest)
    ensures Token(st) == Good(token, State(rest, st.remaining))
  {
    var s := token + rest;
    TokenEnds(token, rest);
    assert s[..|token|] == token && s[|token|..] == rest;
  }

  lemma TagReads(st: State, word: Word, blank: Blank, tail: Doc)
    requires At(st.rest, Tag(word, blank, tail))
    ensures Expect(st, word).Good? && At(Expect(st, word).next.rest, tail)
    ensures Expect(st, word).next.remaining == st.remaining
  {
    hide SkipSpace, Token;
    var rest :| SkipSpace(st.rest) == word + rest && Parted(rest) && At(rest, tail);
    TokenReads(st, word, rest);
  }

  lemma NumReads(st: State, value: int, blank: Blank, tail: Doc, low: int, high: int)
    requires At(st.rest, Num(value, blank, tail)) && low <= value <= high && low <= 0
    ensures var r := Number(st, low, high);
            r.Good? && r.value == value && At(r.next.rest, tail) && r.next.remaining == st.remaining
  {
    hide SkipSpace, Token, Decimal, FromChars;
    DecimalReads(value, low, high);
    var rest :| SkipSpace(st.rest) == Decimal(value) + rest && Parted(rest) && At(rest, tail);
    TokenReads(st, Decimal(value), rest);
  }

  lemma TextReads(st: State, text: string, blank: Blank, tail: Doc)
    requires At(st.rest, Text(text, blank, tail)) && |text| <= MAX_TEXT
    ensures var r := Quoted(st);
            r.Good? && r.value == text && At(r.next.rest, tail) && r.next.remaining == st.remaining
  {
    hide SkipSpace, Unquoted, Escaped;
    var s := SkipSpace(st.rest);
    var rest :| s == "\"" + Escaped(text) + "\"" + rest && At(rest, tail);
    UnquotedEscaped(text, rest);
    assert s[1..] == Escaped(text) + "\"" + rest;
  }
}
