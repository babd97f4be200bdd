/**
 The simulated programs: the Instruction value, the whitespace trimming and
 integer reading used by the program loader, the per-line decoder of
 createProgram, and the loader itself over a file system given as a map from
 file names to their lines.
 */
module Program {

  /** The host's 32-bit signed `int`. */
  newtype int32 = x: int | -0x8000_0000 <= x < 0x8000_0000

  /** Reduces an integer modulo 2^32 into the int32 range (two's complement). */
  function Wrap32(x: int): (r: int32)
    ensures -0x8000_0000 <= x < 0x8000_0000 ==> r as int == x
    ensures (r as int - x) % 0x1_0000_0000 == 0
  {
    (((x + 0x8000_0000) % 0x1_0000_0000) - 0x8000_0000) as int32
  }

  /** One instruction of a simulated program; the opcode letter picks the constructor. */
  datatype Instruction =
    | Set(arg: int32)        // S n
    | Add(arg: int32)        // A n
    | Decrement(arg: int32)  // D n
    | Fork(arg: int32)       // F n
    | Block                  // B
    | End                    // E
    | Replace(name: string)  // R file

  /** The files the loader can open, each as the sequence of its lines. */
  type FileSystem = map<string, seq<string>>

  /** What the loader leaves behind: whether it succeeded, and the instructions it pushed. */
  datatype Loaded = Loaded(ok: bool, program: seq<Instruction>)

  datatype ParseError = InvalidInteger | MissingString | InvalidOperation

  /** The outcome of decoding one line of a program file. */
  datatype LineResult = Skip | Bad(error: ParseError) | Parsed(instr: Instruction)

  // ---------------------------------------------------------------------------
  // Whitespace and trim

  /** The characters " \t\n\r\f\v" that trim strips. */
  predicate IsSpace(c: char) {
    c == ' ' || c == '\t' || c == '\n' || c == '\r' || c == '\U{C}' || c == '\U{B}'
  }

  predicate AllSpace(s: string) {
    forall k :: 0 <= k < |s| ==> IsSpace(s[k])
  }

  /** The length of the run of spaces that starts the string. */
  function LeadingSpaces(s: string): (n: nat)
    ensures n <= |s|
    ensures AllSpace(s[..n])
    ensures n < |s| ==> !IsSpace(s[n])
  {
    if s == [] || !IsSpace(s[0]) then 0 else 1 + LeadingSpaces(s[1..])
  }

  /** The length of the run of spaces that ends the string. */
  function TrailingSpaces(s: string): (n: nat)
    ensures n <= |s|
    ensures AllSpace(s[|s| - n..])
    ensures n < |s| ==> !IsSpace(s[|s| - 1 - n])
  {
    if s == [] || !IsSpace(s[|s| - 1]) then 0 else 1 + TrailingSpaces(s[..|s| - 1])
  }

  /**
   trim(): drops the leading then the trailing run of spaces. Each step is
   taken only when a non-space character exists, so a string made of spaces
   alone comes back unchanged (it is never emptied).
   */
  function Trim(s: string): (r: string)
    ensures AllSpace(s) ==> r == s
    ensures !AllSpace(s) ==> |r| > 0 && !IsSpace(r[0]) && !IsSpace(r[|r| - 1])
    ensures |r| == 0 <==> |s| == 0
  {
    var lead := LeadingSpaces(s);
    if lead == |s| then
      s
    else
      var t := s[lead..];
      t[..|t| - TrailingSpaces(t)]
  }

  lemma AllSpaceConcat(a: string, b: string)
    requires AllSpace(a) && AllSpace(b)
    ensures AllSpace(a + b)
  {
  }

  lemma {:induction false} LeadingSpacesOfPadded(pre: string, t: string)
    requires AllSpace(pre) && |t| > 0 && !IsSpace(t[0])
    ensures LeadingSpaces(pre + t) == |pre|
  {
    if pre != [] {
      assert (pre + t)[1..] == pre[1..] + t;
      LeadingSpacesOfPadded(pre[1..], t);
    }
  }

  lemma {:induction false} TrailingSpacesOfPadded(t: string, post: string)
    requires AllSpace(post) && |t| > 0 && !IsSpace(t[|t| - 1])
    ensures TrailingSpaces(t + post) == |post|
  {
    if post != [] {
      assert (t + post)[..|t + post| - 1] == t + post[..|post| - 1];
      TrailingSpacesOfPadded(t, post[..|post| - 1]);
    }
  }

  /**
   Trim undoes any padding by spaces of a string that starts and ends with a
   non-space: together with the contract of Trim this pins the result down
   for every input.
   */
  lemma TrimPadded(pre: string, t: string, post: string)
    requires AllSpace(pre) && AllSpace(post)
    requires |t| > 0 && !IsSpace(t[0]) && !IsSpace(t[|t| - 1])
    ensures Trim(pre + t + post) == t
  {
    var s := pre + t + post;
    assert s == pre + (t + post);
    LeadingSpacesOfPadded(pre, t + post);
    assert !AllSpace(s) by { assert s[|pre|] == t[0]; }
    assert s[|pre|..] == t + post;
    TrailingSpacesOfPadded(t, post);
  }

  /** Trimming twice is trimming once. */
  lemma TrimIdempotent(s: string)
    ensures Trim(Trim(s)) == Trim(s)
  {
    var r := Trim(s);
    if !AllSpace(s) {
      assert r == [] + r + [];
      TrimPadded([], r, []);
    }
  }

  // ---------------------------------------------------------------------------
  // Reading an int the way `stringstream >> int` does

  predicate IsDigit(c: char) { '0' <= c <= '9' }

  predicate AllDigits(s: string) {
    forall k :: 0 <= k < |s| ==> IsDigit(s[k])
  }

  /** The length of the run of decimal digits that starts the string. */
  function LeadingDigits(s: string): (n: nat)
    ensures n <= |s|
    ensures AllDigits(s[..n])
    ensures n < |s| ==> !IsDigit(s[n])
  {
    if s == [] || !IsDigit(s[0]) then 0 else 1 + LeadingDigits(s[1..])
  }

  function DigitValue(c: char): nat
    requires IsDigit(c)
  {
    (c as int - '0' as int) as nat
  }

  /** The number a string of decimal digits denotes (most significant first). */
  function DecimalValue(d: string): nat
    requires AllDigits(d)
  {
    if d == [] then 0 else DecimalValue(d[..|d| - 1]) * 10 + DigitValue(d[|d| - 1])
  }

  /**
   `argStream >> intArg`: skip spaces, an optional sign, then the longest run
   of decimal digits; no digit, or a value outside int32, is a failure.
   Whatever follows the digits is left in the stream and so is ignored.
   */
  function ParseInt(s: string): (r: Option<int32>)
    ensures LeadingSpaces(s) == |s| ==> r.None?
    ensures var k := LeadingSpaces(s);
      k < |s| && !IsDigit(s[k]) && s[k] != '-' && s[k] != '+' ==> r.None?
    ensures var k := LeadingSpaces(s);
      k < |s| && s[k] in "+-" && (k + 1 == |s| || !IsDigit(s[k + 1])) ==> r.None?
  {
    ReadSigned(s[LeadingSpaces(s)..])
  }

  /** An optional sign and then digits. */
  function ReadSigned(u: string): Option<int32>
  {
    var signed := |u| > 0 && (u[0] == '-' || u[0] == '+');
    InRange(signed && u[0] == '-', ReadDigits(if signed then u[1..] else u))
  }

  /** The value of the leading run of digits, if there is one. */
  function ReadDigits(body: string): Option<nat>
  {
    var n := LeadingDigits(body);
    if n == 0 then None else Some(DecimalValue(body[..n]))
  }

  /** The signed value, when it fits in an int32. */
  function InRange(neg: bool, magnitude: Option<nat>): Option<int32>
  {
    match magnitude
    case None => None
    case Some(m) =>
      var v: int := if neg then -(m as int) else m;
      if -0x8000_0000 <= v < 0x8000_0000 then Some(v as int32) else None
  }

  datatype Option<T> = None | Some(value: T)

  function DigitChar(d: nat): (c: char)
    requires d < 10
    ensures IsDigit(c) && DigitValue(c) == d
  {
    ('0' as int + d) as char
  }

  /** Decimal digits of a natural number, without leading zeros. */
  function NatToString(n: nat): (s: string)
    ensures |s| > 0 && AllDigits(s) && DecimalValue(s) == n
  {
    if n < 10 then [DigitChar(n)]
    else
      var s := NatToString(n / 10) + [DigitChar(n % 10)];
      assert s[..|s| - 1] == NatToString(n / 10);
      s
  }

  /** The usual decimal rendering of an int, with a minus sign when negative. */
  function IntToString(n: int32): (s: string)
  {
    if n < 0 then "-" + NatToString(-(n as int)) else NatToString(n as nat)
  }

  /** A rendered int is non-empty, starts with a sign or digit and ends with a digit. */
  lemma IntToStringShape(n: int32)
    ensures var s := IntToString(n); |s| > 0 && !IsSpace(s[0]) && IsDigit(s[|s| - 1])
  {
  }

  lemma {:induction false} LeadingDigitsOfDigits(d: string, rest: string)
    requires AllDigits(d)
    requires rest == [] || !IsDigit(rest[0])
    ensures LeadingDigits(d + rest) == |d|
  {
    if d != [] {
      assert (d + rest)[1..] == d[1..] + rest;
      LeadingDigitsOfDigits(d[1..], rest);
    }
  }

  /** Digits followed by text that does not continue them read as the digits' value. */
  lemma ReadDigitsOf(d: string, rest: string)
    requires |d| > 0 && AllDigits(d)
    requires rest == [] || !IsDigit(rest[0])
    ensures ReadDigits(d + rest) == Some(DecimalValue(d))
  {
    LeadingDigitsOfDigits(d, rest);
    assert (d + rest)[..|d|] == d;
  }

  /** A minus sign followed by text whose leading digits read as k. */
  lemma ReadNegative(u: string, k: nat)
    requires |u| > 0 && u[0] == '-' && ReadDigits(u[1..]) == Some(k)
    ensures ReadSigned(u) == InRange(true, Some(k))
  {
  }

  /** Digits, and text that does not continue them. */
  lemma ReadUnsigned(d: string, rest: string)
    requires |d| > 0 && AllDigits(d)
    requires rest == [] || !IsDigit(rest[0])
    ensures ReadSigned(d + rest) == InRange(false, Some(DecimalValue(d)))
  {
    assert IsDigit((d + rest)[0]);
    ReadDigitsOf(d, rest);
  }

  /** Text that does not start with a space is read from its first character. */
  lemma ParseIntNoSpace(s: string)
    requires |s| > 0 && !IsSpace(s[0])
    ensures ParseInt(s) == ReadSigned(s)
  {
    assert s[0..] == s;
  }

  /**
   Reading back the rendering of an int gives that int, whatever follows it
   as long as it does not continue the digits (trailing text is accepted).
   */
  lemma ParseIntToString(n: int32, rest: string)
    requires rest == [] || !IsDigit(rest[0])
    ensures ParseInt(IntToString(n) + rest) == Some(n)
  {
    var s := IntToString(n) + rest;
    ParseIntNoSpace(s);
    if n < 0 {
      ReadSignedNegative(n, rest);
    } else {
      var d := NatToString(n as nat);
      assert s == d + rest;
      ReadUnsigned(d, rest);
    }
  }

  lemma ReadSignedNegative(n: int32, rest: string)
    requires n < 0
    requires rest == [] || !IsDigit(rest[0])
    ensures ReadSigned(IntToString(n) + rest) == Some(n)
  {
    var d := NatToString(-(n as int));
    var s := IntToString(n) + rest;
    assert s == ['-'] + (d + rest);
    assert s[1..] == d + rest;
    ReadDigitsOf(d, rest);
    ReadNegative(s, DecimalValue(d));
  }

  /** A run of digits whose value does not fit in an int32 fails. */
  lemma ParseIntTooLarge(d: string, rest: string)
    requires |d| > 0 && AllDigits(d) && DecimalValue(d) >= 0x8000_0000
    requires rest == [] || !IsDigit(rest[0])
    ensures ParseInt(d + rest) == None
  {
    assert IsDigit((d + rest)[0]);
    ParseIntNoSpace(d + rest);
    ReadUnsigned(d, rest);
  }

  /** A minus sign and digits whose negation does not fit in an int32 fail. */
  lemma ParseIntTooSmall(d: string, rest: string)
    requires |d| > 0 && AllDigits(d) && DecimalValue(d) > 0x8000_0000
    requires rest == [] || !IsDigit(rest[0])
    ensures ParseInt(['-'] + d + rest) == None
  {
    var s := ['-'] + d + rest;
    assert s[1..] == d + rest;
    ParseIntNoSpace(s);
    ReadDigitsOf(d, rest);
    ReadNegative(s, DecimalValue(d));
  }

  // ---------------------------------------------------------------------------
  // One line of a program file

  const LowerLetters := "abcdefghijklmnopqrstuvwxyz"
  const UpperLetters := "ABCDEFGHIJKLMNOPQRSTUVWXYZ"

  /** toupper() for the letters; other characters are returned unchanged. */
  function ToUpper(c: char): (u: char)
    ensures forall k :: 0 <= k < 26 && c == LowerLetters[k] ==> u == UpperLetters[k]
    ensures c !in LowerLetters ==> u == c
  {
    if 'a' <= c <= 'z' then (c as int - 32) as char else c
  }

  /**
   The body of createProgram's loop for one line: trim it; an empty result is
   skipped; otherwise the first character, upper-cased, is the opcode and the
   trimmed remainder is the argument.
   */
  function ParseLine(raw: string): (r: LineResult)
    ensures r.Skip? <==> |raw| == 0
    ensures !AllSpace(raw) ==> r.Parsed? ==> Letter(r.instr) == ToUpper(Trim(raw)[0])
  {
    var line := Trim(raw);
    if |line| == 0 then Skip else Decode(ToUpper(line[0]), Trim(line[1..]))
  }

  /**
   Only a line with no characters at all is skipped: a non-empty line of
   spaces alone survives trim and is then rejected for its opcode.
   */
  lemma ParseLineBlank(raw: string)
    ensures ParseLine(raw).Skip? <==> |raw| == 0
    ensures 0 < |raw| && AllSpace(raw) ==> ParseLine(raw) == Bad(InvalidOperation)
  {
    if 0 < |raw| && AllSpace(raw) {
      assert IsSpace(raw[0]);
    }
  }

  /** The switch on the opcode letter `op` with its trimmed argument `arg`. */
  function Decode(op: char, arg: string): (r: LineResult)
    ensures !r.Skip?
    ensures r == Bad(InvalidOperation) <==> op !in "SADFBER"
    ensures r == Bad(InvalidInteger) <==> op in "SADF" && ParseInt(arg).None?
    ensures r == Bad(MissingString) <==> op == 'R' && |arg| == 0
    ensures r.Parsed? ==> Letter(r.instr) == op
    ensures r.Parsed? && op in "SADF" ==> Some(r.instr.arg) == ParseInt(arg)
    ensures r.Parsed? && op == 'R' ==> r.instr.name == arg
    ensures op in "BE" ==> r.Parsed?
  {
    if op == 'S' || op == 'A' || op == 'D' || op == 'F' then
      match ParseInt(arg)
      case None => Bad(InvalidInteger)
      case Some(n) =>
        Parsed(if op == 'S' then Set(n) else if op == 'A' then Add(n)
               else if op == 'D' then Decrement(n) else Fork(n))
    else if op == 'B' then Parsed(Block)
    else if op == 'E' then Parsed(End)
    else if op == 'R' then
      if |arg| == 0 then Bad(MissingString) else Parsed(Replace(arg))
    else Bad(InvalidOperation)
  }

  /** The opcode letter of an instruction, in upper case. */
  function Letter(i: Instruction): char
  {
    match i
    case Set(_) => 'S' case Add(_) => 'A' case Decrement(_) => 'D' case Fork(_) => 'F'
    case Block => 'B' case End => 'E' case Replace(_) => 'R'
  }

  /** The argument text of an instruction: its number, its file name, or nothing. */
  function ArgText(i: Instruction): string
  {
    match i
    case Set(n) => IntToString(n) case Add(n) => IntToString(n)
    case Decrement(n) => IntToString(n) case Fork(n) => IntToString(n)
    case Block => "" case End => ""
    case Replace(name) => name
  }

  /** The opcode letter as written, in upper or lower case. */
  function OpChar(i: Instruction, lower: bool): (c: char)
    ensures !IsSpace(c) && ToUpper(c) == Letter(i)
  {
    if lower then (Letter(i) as int + 32) as char else Letter(i)
  }

  /** A program line for the instruction; `lower` writes the opcode letter in lower case. */
  function Render(i: Instruction, lower: bool): string
  {
    var op := OpChar(i, lower);
    if i.Block? || i.End? then [op] else [op, ' '] + ArgText(i)
  }

  /** A Replace argument that survives trimming: non-empty, no space at either end. */
  predicate Renderable(i: Instruction) {
    i.Replace? ==> |i.name| > 0 && !IsSpace(i.name[0]) && !IsSpace(i.name[|i.name| - 1])
  }

  /** The opcode switch reads an instruction back from its letter and argument text. */
  lemma DecodeArgText(i: Instruction)
    requires Renderable(i)
    ensures Decode(Letter(i), ArgText(i)) == Parsed(i)
  {
    if i.Set? || i.Add? || i.Decrement? || i.Fork? {
      ParseIntOfString(i.arg);
      DecodeNumber(Letter(i), ArgText(i), i.arg);
    }
  }

  lemma DecodeNumber(op: char, arg: string, n: int32)
    requires op == 'S' || op == 'A' || op == 'D' || op == 'F'
    requires ParseInt(arg) == Some(n)
    ensures Decode(op, arg) == Parsed(if op == 'S' then Set(n) else if op == 'A' then Add(n)
                                      else if op == 'D' then Decrement(n) else Fork(n))
  {
  }

  lemma ParseIntOfString(n: int32)
    ensures ParseInt(IntToString(n)) == Some(n)
  {
    ParseIntToString(n, []);
    assert IntToString(n) + [] == IntToString(n);
  }

  /** The argument text of a renderable instruction has no space at either end. */
  lemma ArgTextShape(i: Instruction)
    requires Renderable(i) && !i.Block? && !i.End?
    ensures var arg := ArgText(i); |arg| > 0 && !IsSpace(arg[0]) && !IsSpace(arg[|arg| - 1])
  {
    if !i.Replace? {
      IntToStringShape(i.arg);
    }
  }

  /** A line made of a letter, a space and an argument with no space at either end. */
  lemma LetterSpaceArg(op: char, arg: string)
    requires !IsSpace(op) && |arg| > 0 && !IsSpace(arg[0]) && !IsSpace(arg[|arg| - 1])
    ensures var line := [op, ' '] + arg;
      !IsSpace(line[|line| - 1]) && Trim(line[1..]) == arg
  {
    var line := [op, ' '] + arg;
    assert line[1..] == [' '] + arg + [];
    assert AllSpace([' ']) && AllSpace([]);
    TrimPadded([' '], arg, []);
    assert line[|line| - 1] == arg[|arg| - 1];
  }

  /**
   A rendered line starts with its opcode letter in either case, and what
   follows trims to the argument text.
   */
  lemma RenderShape(i: Instruction, lower: bool)
    requires Renderable(i)
    ensures var line := Render(i, lower);
      |line| > 0 && !IsSpace(line[0]) && !IsSpace(line[|line| - 1]) &&
      ToUpper(line[0]) == Letter(i) && Trim(line[1..]) == ArgText(i)
  {
    var op := OpChar(i, lower);
    if i.Block? || i.End? {
      assert Render(i, lower)[1..] == [];
    } else {
      ArgTextShape(i);
      LetterSpaceArg(op, ArgText(i));
    }
  }

  /**
   Decoding inverts rendering, in either letter case and under any padding by
   spaces: the loader reads back exactly the instruction written.
   */
  lemma ParseRender(i: Instruction, lower: bool, pre: string, post: string)
    requires Renderable(i) && AllSpace(pre) && AllSpace(post)
    ensures ParseLine(pre + Render(i, lower) + post) == Parsed(i)
  {
    var line := Render(i, lower);
    RenderShape(i, lower);
    TrimPadded(pre, line, post);
    DecodeArgText(i);
  }

  // ---------------------------------------------------------------------------
  // The loader

  /** `f` applied to every element, in order. */
  function MapSeq<A, B>(f: A -> B, s: seq<A>): (r: seq<B>)
    ensures |r| == |s|
    ensures forall k {:trigger r[k]} :: 0 <= k < |s| ==> r[k] == f(s[k])
  {
    seq(|s|, k requires 0 <= k < |s| => f(s[k]))
  }

  lemma MapSeqConcat<A, B>(f: A -> B, a: seq<A>, b: seq<A>)
    ensures MapSeq(f, a + b) == MapSeq(f, a) + MapSeq(f, b)
  {
    var l, r := a + b, MapSeq(f, a) + MapSeq(f, b);
    forall k | 0 <= k < |l| ensures MapSeq(f, l)[k] == r[k] {
      if k < |a| {
        assert l[k] == a[k] && r[k] == MapSeq(f, a)[k];
      } else {
        assert l[k] == b[k - |a|] && r[k] == MapSeq(f, b)[k - |a|];
      }
    }
  }

  lemma MapSeqPrefix<A, B>(f: A -> B, s: seq<A>, k: nat)
    requires k <= |s|
    ensures MapSeq(f, s[..k]) == MapSeq(f, s)[..k]
  {
  }

  /** The decoding of every line, in order. */
  function Classify(lines: seq<string>): (rs: seq<LineResult>)
    ensures |rs| == |lines|
    ensures forall k {:trigger rs[k]} :: 0 <= k < |lines| ==> rs[k] == ParseLine(lines[k])
  {
    MapSeq(ParseLine, lines)
  }

  /**
   createProgram's loop over decoded lines: skip, push each instruction, and
   at the first malformed line stop and report failure, keeping the
   instructions pushed so far.
   */
  function Collect(rs: seq<LineResult>): (r: Loaded)
    ensures r.ok <==> forall k :: 0 <= k < |rs| ==> !rs[k].Bad?
    ensures |r.program| <= |rs|
  {
    if rs == [] then Loaded(true, []) else Push(rs[0], Collect(rs[1..]))
  }

  /** One step of the loop: what decoding one line adds in front of the rest. */
  function Push(r: LineResult, rest: Loaded): Loaded
  {
    match r
    case Skip => rest
    case Bad(_) => Loaded(false, [])
    case Parsed(i) => Loaded(rest.ok, [i] + rest.program)
  }

  lemma CollectFrom(rs: seq<LineResult>, i: nat)
    requires i < |rs|
    ensures Collect(rs[i..]) == Push(rs[i], Collect(rs[i + 1..]))
  {
    assert rs[i..][0] == rs[i];
    assert rs[i..][1..] == rs[i + 1..];
  }

  /** createProgram over the lines of an opened file. */
  function LoadLines(lines: seq<string>): (r: Loaded)
    ensures r.ok <==> forall k :: 0 <= k < |lines| ==> !ParseLine(lines[k]).Bad?
    ensures |r.program| <= |lines|
  {
    var rs := Classify(lines);
    assert forall k :: 0 <= k < |lines| ==> rs[k] == ParseLine(lines[k]);
    Collect(rs)
  }

  /** createProgram on a file name: a file that cannot be opened loads nothing and fails. */
  function LoadProgram(fs: FileSystem, name: string): (r: Loaded)
    ensures name !in fs ==> r == Loaded(false, [])
  {
    if name in fs then LoadLines(fs[name]) else Loaded(false, [])
  }

  /** The lines a program is written as, one instruction per line. */
  function RenderAll(program: seq<Instruction>, lower: bool): (lines: seq<string>)
    ensures |lines| == |program|
    ensures forall k :: 0 <= k < |program| ==> lines[k] == Render(program[k], lower)
  {
    if program == [] then [] else [Render(program[0], lower)] + RenderAll(program[1..], lower)
  }

  /** Collecting the decodings of well-formed lines gives their instructions. */
  lemma {:induction false} CollectParsed(rs: seq<LineResult>, program: seq<Instruction>)
    requires |rs| == |program| && forall k :: 0 <= k < |rs| ==> rs[k] == Parsed(program[k])
    ensures Collect(rs) == Loaded(true, program)
  {
    if rs != [] {
      CollectParsed(rs[1..], program[1..]);
      assert program == [program[0]] + program[1..];
    }
  }

  /** Writing a program out line by line and loading it back gives the same program. */
  lemma LoadRenderAll(program: seq<Instruction>, lower: bool)
    requires forall k :: 0 <= k < |program| ==> Renderable(program[k])
    ensures LoadLines(RenderAll(program, lower)) == Loaded(true, program)
  {
    var lines := RenderAll(program, lower);
    var rs := Classify(lines);
    forall k | 0 <= k < |rs| ensures rs[k] == Parsed(program[k]) {
      assert [] + lines[k] + [] == lines[k];
      ParseRender(program[k], lower, [], []);
    }
    CollectParsed(rs, program);
  }

  lemma {:induction false} CollectSkip(before: seq<LineResult>, after: seq<LineResult>)
    ensures Collect(before + [Skip] + after) == Collect(before + after)
  {
    if before == [] {
      assert before + [Skip] + after == [Skip] + after;
      assert before + after == after;
      assert ([Skip] + after)[1..] == after;
    } else {
      var l1, l2 := before + [Skip] + after, before + after;
      assert l1[0] == before[0] && l2[0] == before[0];
      assert l1[1..] == before[1..] + [Skip] + after;
      assert l2[1..] == before[1..] + after;
      CollectSkip(before[1..], after);
    }
  }

  /** Empty lines anywhere are skipped: inserting one changes nothing. */
  lemma LoadSkipsEmptyLine(before: seq<string>, after: seq<string>)
    ensures LoadLines(before + [""] + after) == LoadLines(before + after)
  {
    ParseLineBlank("");
    assert Classify([""]) == [Skip];
    MapSeqConcat(ParseLine, before, [""]);
    MapSeqConcat(ParseLine, before + [""], after);
    MapSeqConcat(ParseLine, before, after);
    CollectSkip(Classify(before), Classify(after));
  }

  lemma {:induction false} CollectStopsAtBad(rs: seq<LineResult>, k: nat)
    requires k < |rs| && rs[k].Bad? && forall j :: 0 <= j < k ==> !rs[j].Bad?
    ensures Collect(rs) == Loaded(false, Collect(rs[..k]).program)
  {
    if k > 0 {
      assert rs[1..][..k - 1] == rs[..k][1..];
      assert rs[..k][0] == rs[0];
      CollectStopsAtBad(rs[1..], k - 1);
    }
  }

  /**
   On failure the pushed instructions are exactly those of the lines before
   the first malformed one.
   */
  lemma LoadStopsAtFirstBadLine(lines: seq<string>, k: nat)
    requires k < |lines| && ParseLine(lines[k]).Bad?
    requires forall j :: 0 <= j < k ==> !ParseLine(lines[j]).Bad?
    ensures LoadLines(lines) == Loaded(false, LoadLines(lines[..k]).program)
  {
    var rs := Classify(lines);
    MapSeqPrefix(ParseLine, lines, k);
    CollectStopsAtBad(rs, k);
  }

  /** Loading two pieces one after the other: the second counts only if the first had no bad line. */
  function Then(first: Loaded, second: Loaded): Loaded
  {
    if first.ok then Loaded(second.ok, first.program + second.program) else first
  }

  lemma {:induction false} CollectConcat(a: seq<LineResult>, b: seq<LineResult>)
    ensures Collect(a + b) == Then(Collect(a), Collect(b))
  {
    if a == [] {
      assert a + b == b;
    } else {
      assert (a + b)[0] == a[0] && (a + b)[1..] == a[1..] + b;
      CollectConcat(a[1..], b);
    }
  }

  /**
   Lines are loaded in order: the instructions of a file are those of its
   first part followed by those of the rest, unless the first part already
   held a malformed line.
   */
  lemma LoadLinesConcat(a: seq<string>, b: seq<string>)
    ensures LoadLines(a + b) == Then(LoadLines(a), LoadLines(b))
  {
    MapSeqConcat(ParseLine, a, b);
    CollectConcat(Classify(a), Classify(b));
  }

  /** A single line loads as its own instruction, as nothing, or as a failure. */
  lemma LoadOneLine(line: string)
    ensures ParseLine(line).Skip? ==> LoadLines([line]) == Loaded(true, [])
    ensures ParseLine(line).Parsed? ==> LoadLines([line]) == Loaded(true, [ParseLine(line).instr])
    ensures ParseLine(line).Bad? ==> LoadLines([line]) == Loaded(false, [])
  {
    var rs := Classify([line]);
    assert rs == [ParseLine(line)];
    assert rs[1..] == [];
  }

  /** The loop invariant of createProgram: the instructions pushed so far, then the rest of the file. */
  predicate LoadedSoFar(rs: seq<LineResult>, i: nat, program: seq<Instruction>)
    requires i <= |rs|
  {
    Collect(rs) == Loaded(Collect(rs[i..]).ok, program + Collect(rs[i..]).program)
  }

  /** How one more line moves the invariant along, or ends the loop on a malformed line. */
  lemma LoadedSoFarStep(rs: seq<LineResult>, i: nat, program: seq<Instruction>)
    requires i < |rs| && LoadedSoFar(rs, i, program)
    ensures rs[i].Skip? ==> LoadedSoFar(rs, i + 1, program)
    ensures rs[i].Parsed? ==> LoadedSoFar(rs, i + 1, program + [rs[i].instr])
    ensures rs[i].Bad? ==> Collect(rs) == Loaded(false, program)
  {
    CollectFrom(rs, i);
    var rest := Collect(rs[i + 1..]);
    if rs[i].Parsed? {
      assert program + [rs[i].instr] + rest.program == program + ([rs[i].instr] + rest.program);
    }
    if rs[i].Bad? {
      assert program + [] == program;
    }
  }

  /**
   createProgram(filename, program) with `program` empty on entry: opens the
   file (absent from `fs`: failure, nothing pushed) and decodes it line by
   line, pushing one instruction per decoded line.
   */
  method CreateProgram(fs: FileSystem, filename: string) returns (ok: bool, program: seq<Instruction>)
    ensures Loaded(ok, program) == LoadProgram(fs, filename)
  {
    if filename !in fs {
      return false, [];
    }
    var lines := fs[filename];
    ghost var rs := Classify(lines);
    program := [];
    var i := 0;
    assert rs[0..] == rs;
    while i < |lines|
      invariant 0 <= i <= |lines|
      invariant LoadedSoFar(rs, i, program)
    {
      var line := ParseLine(lines[i]);
      assert line == rs[i];
      LoadedSoFarStep(rs, i, program);
      match line {
        case Skip =>
        case Bad(_) =>
          return false, program;
        case Parsed(instr) =>
          program := program + [instr];
      }
      i := i + 1;
    }
    assert rs[i..] == [];
    assert program + [] == program;
    ok := true;
  }
}
