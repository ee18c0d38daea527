/** The JSON text of journal lines and snapshots (RFC 8259), as encoding/json writes it: compact,
    control characters escaped. One `char` stands for one byte.

    Three facts carry the whole crash argument of the journal: an encoding has no newline and
    parses back to its value (`RoundTrip`, `NoControl`); a value cut short never parses as a
    document (`CutNeverParses`); and a value cut short with a whole document glued on behind it
    never parses either (`GluedNeverParses`). */
module Json {

  datatype Option<+T> = None | Some(value: T)

  datatype Value =
    | Null
    | Bool(b: bool)
    | Num(n: nat)
    | Str(s: string)
    | Arr(elems: Elems)
    | Obj(members: Members)

  datatype Elems = NoElem | Elem(head: Value, tail: Elems)

  datatype Members = NoMember | Member(key: string, val: Value, rest: Members)

  /** A parser's answer: the value read and the text left over. */
  datatype Parsed<+T> = Fail | Ok(val: T, rest: string)

  // ---------------------------------------------------------------- writing

  function HexDigit(n: nat): char
    requires n < 16
  {
    if n < 10 then ('0' as int + n) as char else ('a' as int + n - 10) as char
  }

  function EscapeChar(c: char): string {
    if c == '"' then "\\\""
    else if c == '\\' then "\\\\"
    else if c == '\n' then "\\n"
    else if c == '\r' then "\\r"
    else if c == '\t' then "\\t"
    else if c < ' ' || c == '<' || c == '>' || c == '&' then
      ['\\', 'u', '0', '0', HexDigit(c as int / 16), HexDigit(c as int % 16)]
    else [c]
  }

  function Escape(s: string): string {
    if s == [] then [] else EscapeChar(s[0]) + Escape(s[1..])
  }

  function Quote(s: string): string {
    "\"" + Escape(s) + "\""
  }

  function Digits(n: nat): string {
    if n < 10 then [HexDigit(n)] else Digits(n / 10) + [HexDigit(n % 10)]
  }

  function Text(v: Value): string {
    match v
    case Null => "null"
    case Bool(b) => if b then "true" else "false"
    case Num(n) => Digits(n)
    case Str(s) => Quote(s)
    case Arr(NoElem) => "[]"
    case Arr(Elem(h, t)) => "[" + (Text(h) + ElemsText(t))
    case Obj(NoMember) => "{}"
    case Obj(Member(k, v, r)) => "{" + (Quote(k) + (":" + (Text(v) + MembersText(r))))
  }

  /** The text of an array after its first element. */
  function ElemsText(es: Elems): string {
    match es
    case NoElem => "]"
    case Elem(h, t) => "," + (Text(h) + ElemsText(t))
  }

  /** The text of an object after its first member. */
  function MembersText(ms: Members): string {
    match ms
    case NoMember => "}"
    case Member(k, v, r) => "," + (Quote(k) + (":" + (Text(v) + MembersText(r))))
  }

  // ---------------------------------------------------------------- reading

  function HexValue(c: char): (n: int)
    ensures -1 <= n < 16
  {
    if '0' <= c <= '9' then c as int - '0' as int
    else if 'a' <= c <= 'f' then c as int - 'a' as int + 10
    else if 'A' <= c <= 'F' then c as int - 'A' as int + 10
    else -1
  }

  predicate IsDigit(c: char) { '0' <= c <= '9' }

  /** One character of a string literal and the number of bytes it takes. */
  datatype Unit = NoUnit | Unit(c: char, len: nat)

  function ReadUnit(t: string): (u: Unit)
    requires t != []
    ensures u.Unit? ==> 0 < u.len <= |t|
  {
    if t[0] == '\\' then
      if |t| < 2 then NoUnit
      else if t[1] == '"' || t[1] == '\\' || t[1] == '/' then Unit(t[1], 2)
      else if t[1] == 'n' then Unit('\n', 2)
      else if t[1] == 'r' then Unit('\r', 2)
      else if t[1] == 't' then Unit('\t', 2)
      else if t[1] == 'b' then Unit(8 as char, 2)
      else if t[1] == 'f' then Unit(12 as char, 2)
      else if t[1] == 'u' && |t| >= 6 && t[2] == '0' && t[3] == '0'
              && 0 <= HexValue(t[4]) < 8 && 0 <= HexValue(t[5]) then
        Unit((HexValue(t[4]) * 16 + HexValue(t[5])) as char, 6)
      else NoUnit
    else if t[0] < ' ' then NoUnit
    else Unit(t[0], 1)
  }

  /** Reads a string literal from just behind its opening quote. */
  function ReadString(t: string): (p: Parsed<string>)
    ensures p.Ok? ==> |p.rest| < |t|
    decreases |t|
  {
    if t == [] then Fail
    else if t[0] == '"' then Ok([], t[1..])
    else match ReadUnit(t)
      case NoUnit => Fail
      case Unit(c, n) =>
        match ReadString(t[n..])
        case Fail => Fail
        case Ok(s, rest) => Ok([c] + s, rest)
  }

  function ReadDigits(t: string, acc: nat): (p: (nat, string))
    ensures |p.1| <= |t|
    decreases |t|
  {
    if t != [] && IsDigit(t[0])
    then ReadDigits(t[1..], acc * 10 + (t[0] as int - '0' as int))
    else (acc, t)
  }

  function Expect(word: string, t: string, v: Value): (p: Parsed<Value>)
    requires word != []
    ensures p.Ok? ==> |p.rest| < |t|
  {
    if word <= t then Ok(v, t[|word|..]) else Fail
  }

  /** Reads one value. A leading zero stands alone (RFC 8259 section 6). */
  function Read(t: string): (p: Parsed<Value>)
    ensures p.Ok? ==> |p.rest| < |t|
    decreases |t|, 2
  {
    if t == [] then Fail
    else if t[0] == 'n' then Expect("null", t, Null)
    else if t[0] == 't' then Expect("true", t, Bool(true))
    else if t[0] == 'f' then Expect("false", t, Bool(false))
    else if t[0] == '0' then Ok(Num(0), t[1..])
    else if IsDigit(t[0]) then
      var (n, rest) := ReadDigits(t[1..], t[0] as int - '0' as int);
      Ok(Num(n), rest)
    else if t[0] == '"' then
      match ReadString(t[1..])
      case Fail => Fail
      case Ok(s, rest) => Ok(Str(s), rest)
    else if t[0] == '[' then
      if |t| > 1 && t[1] == ']' then Ok(Arr(NoElem), t[2..])
      else (match ReadElem(t[1..])
            case Fail => Fail
            case Ok(es, rest) => Ok(Arr(es), rest))
    else if t[0] == '{' then
      if |t| > 1 && t[1] == '}' then Ok(Obj(NoMember), t[2..])
      else (match ReadMember(t[1..])
            case Fail => Fail
            case Ok(ms, rest) => Ok(Obj(ms), rest))
    else Fail
  }

  function ReadElem(t: string): (p: Parsed<Elems>)
    ensures p.Ok? ==> |p.rest| < |t|
    decreases |t|, 3
  {
    match Read(t)
    case Fail => Fail
    case Ok(v, rest) =>
      match ReadElems(rest)
      case Fail => Fail
      case Ok(es, rest') => Ok(Elem(v, es), rest')
  }

  function ReadElems(t: string): (p: Parsed<Elems>)
    ensures p.Ok? ==> |p.rest| < |t|
    decreases |t|, 1
  {
    if t == [] then Fail
    else if t[0] == ']' then Ok(NoElem, t[1..])
    else if t[0] == ',' then ReadElem(t[1..])
    else Fail
  }

  function ReadMember(t: string): (p: Parsed<Members>)
    ensures p.Ok? ==> |p.rest| < |t|
    decreases |t|, 3
  {
    if t == [] || t[0] != '"' then Fail
    else match ReadString(t[1..])
      case Fail => Fail
      case Ok(k, colon) =>
        if colon == [] || colon[0] != ':' then Fail
        else match Read(colon[1..])
          case Fail => Fail
          case Ok(v, rest) =>
            match ReadMembers(rest)
            case Fail => Fail
            case Ok(ms, rest') => Ok(Member(k, v, ms), rest')
  }

  function ReadMembers(t: string): (p: Parsed<Members>)
    ensures p.Ok? ==> |p.rest| < |t|
    decreases |t|, 1
  {
    if t == [] then Fail
    else if t[0] == '}' then Ok(NoMember, t[1..])
    else if t[0] == ',' then ReadMember(t[1..])
    else Fail
  }

  /** A whole document: one value and nothing behind it. */
  function Parse(t: string): Option<Value> {
    match Read(t)
    case Fail => None
    case Ok(v, rest) => if rest == [] then Some(v) else None
  }

  // ---------------------------------------------------------------- round trip

  lemma Drop(a: string, b: string)
    ensures (a + b)[|a|..] == b && (a != [] ==> (a + b)[0] == a[0])
  {
  }

  lemma Assoc(a: string, b: string, c: string)
    ensures (a + b) + c == a + (b + c)
  {
  }

  lemma UnitRoundTrip(c: char, rest: string)
    ensures EscapeChar(c) != [] && EscapeChar(c)[0] != '"'
    ensures |EscapeChar(c)| > 1 ==> EscapeChar(c)[0] == '\\'
    ensures ReadUnit(EscapeChar(c) + rest) == Unit(c, |EscapeChar(c)|)
  {
    var t := EscapeChar(c) + rest;
    if c < ' ' || c == '<' || c == '>' || c == '&' {
      var n := c as int;
      assert n / 16 < 8 && n == n / 16 * 16 + n % 16;
      assert HexValue(HexDigit(n / 16)) == n / 16 && HexValue(HexDigit(n % 16)) == n % 16;
    }
  }

  lemma NextUnit(c: char, t: string)
    ensures ReadString(EscapeChar(c) + t) ==
            (match ReadString(t) case Fail => Fail case Ok(s, rest) => Ok([c] + s, rest))
  {
    UnitRoundTrip(c, t);
    Drop(EscapeChar(c), t);
  }

  lemma {:induction false} StringRoundTrip(s: string, rest: string)
    ensures ReadString(Escape(s) + ("\"" + rest)) == Ok(s, rest)
  {
    var close := "\"" + rest;
    if s == [] {
      assert Escape(s) + close == close;
      Drop("\"", rest);
    } else {
      Assoc(EscapeChar(s[0]), Escape(s[1..]), close);
      NextUnit(s[0], Escape(s[1..]) + close);
      StringRoundTrip(s[1..], rest);
      assert [s[0]] + s[1..] == s;
    }
  }

  lemma {:induction false} DigitsRoundTrip(n: nat, rest: string)
    ensures ReadDigits(Digits(n) + rest, 0) == ReadDigits(rest, n)
  {
    var d := HexDigit(n % 10);
    assert IsDigit(d) && d as int - '0' as int == n % 10;
    assert ([d] + rest)[1..] == rest;
    if n >= 10 {
      assert Digits(n) + rest == Digits(n / 10) + ([d] + rest);
      DigitsRoundTrip(n / 10, [d] + rest);
      assert n / 10 * 10 + n % 10 == n;
    }
  }

  lemma {:induction false} DigitsShape(n: nat)
    ensures Digits(n) != [] && IsDigit(Digits(n)[0])
    ensures Digits(n)[0] == '0' ==> n == 0
    ensures forall c | c in Digits(n) :: IsDigit(c)
  {
    if n >= 10 { DigitsShape(n / 10); }
  }

  /** Text that cannot continue a number. */
  predicate NoDigit(t: string) { t == [] || !IsDigit(t[0]) }

  lemma NumRoundTrip(n: nat, rest: string)
    requires NoDigit(rest)
    ensures Read(Digits(n) + rest) == Ok(Num(n), rest)
  {
    DigitsShape(n);
    DigitsRoundTrip(n, rest);
    var t := Digits(n) + rest;
    if n == 0 {
      assert t[1..] == rest;
    } else {
      assert ReadDigits(t, 0) == ReadDigits(t[1..], t[0] as int - '0' as int);
    }
  }

  lemma WordRoundTrip(b: bool, rest: string)
    ensures Read("null" + rest) == Ok(Null, rest)
    ensures Read(Text(Bool(b)) + rest) == Ok(Bool(b), rest)
  {
    assert ("null" + rest)[4..] == rest && "null" <= "null" + rest;
    assert ("true" + rest)[4..] == rest && "true" <= "true" + rest;
    assert ("false" + rest)[5..] == rest && "false" <= "false" + rest;
  }

  lemma StrRoundTrip(s: string, rest: string)
    ensures Read(Quote(s) + rest) == Ok(Str(s), rest)
  {
    assert (Quote(s) + rest)[1..] == Escape(s) + ("\"" + rest);
    StringRoundTrip(s, rest);
  }

  /** A value's text starts with none of the closing or separating characters. */
  lemma TextHead(v: Value)
    ensures Text(v) != [] && Text(v)[0] !in ",:]}"
  {
    if v.Num? { DigitsShape(v.n); }
  }

  /** Reading what was written gives the value back and leaves what follows untouched. */
  lemma {:induction false} RoundTrip(v: Value, rest: string)
    requires NoDigit(rest)
    ensures Read(Text(v) + rest) == Ok(v, rest)
    decreases v, 0
  {
    match v
    case Null => WordRoundTrip(true, rest);
    case Bool(b) => WordRoundTrip(b, rest);
    case Num(n) => NumRoundTrip(n, rest);
    case Str(s) => StrRoundTrip(s, rest);
    case Arr(es) => ArrRoundTrip(es, rest);
    case Obj(ms) => ObjRoundTrip(ms, rest);
  }

  lemma {:induction false} ArrRoundTrip(es: Elems, rest: string)
    ensures Read(Text(Arr(es)) + rest) == Ok(Arr(es), rest)
    decreases es, 3
  {
    hide Read, ReadElem;
    if es.NoElem? {
      EmptyRoundTrip(rest);
    } else {
      var t := Text(es.head) + (ElemsText(es.tail) + rest);
      TextHead(es.head);
      Assoc(Text(es.head), ElemsText(es.tail), rest);
      Assoc(['['], Text(es.head) + ElemsText(es.tail), rest);
      ElemRoundTrip(es, rest);
      Drop(['['], t);
      assert (['['] + t)[1] == Text(es.head)[0];
      UnfoldArr(['['] + t);
    }
  }

  lemma {:induction false} ElemRoundTrip(es: Elems, rest: string)
    requires es.Elem?
    ensures ReadElem(Text(es.head) + (ElemsText(es.tail) + rest)) == Ok(es, rest)
    decreases es, 1
  {
    RoundTrip(es.head, ElemsText(es.tail) + rest);
    ElemsRoundTrip(es.tail, rest);
  }

  lemma {:induction false} ElemsRoundTrip(es: Elems, rest: string)
    ensures ReadElems(ElemsText(es) + rest) == Ok(es, rest)
    decreases es, 2
  {
    if es.NoElem? {
      Drop("]", rest);
    } else {
      var t := Text(es.head) + (ElemsText(es.tail) + rest);
      Assoc(Text(es.head), ElemsText(es.tail), rest);
      Assoc([','], Text(es.head) + ElemsText(es.tail), rest);
      ElemRoundTrip(es, rest);
      Drop([','], t);
    }
  }

  lemma Regroup(a: string, b: string, c: string, d: string, rest: string)
    ensures (a + (b + (c + d))) + rest == a + (b + (c + (d + rest)))
  {
  }

  lemma UnfoldArr(t: string)
    requires t != [] && t[0] == '[' && (|t| > 1 ==> t[1] != ']')
    ensures Read(t) == (match ReadElem(t[1..]) case Fail => Fail case Ok(es, rest) => Ok(Arr(es), rest))
  {
    hide ReadElem, ReadMember, ReadString, ReadDigits, Expect;
  }

  lemma UnfoldObj(t: string)
    requires t != [] && t[0] == '{' && (|t| > 1 ==> t[1] != '}')
    ensures Read(t) == (match ReadMember(t[1..]) case Fail => Fail case Ok(ms, rest) => Ok(Obj(ms), rest))
  {
    hide ReadElem, ReadMember, ReadString, ReadDigits, Expect;
  }

  lemma Opened(t: string, rest: string, ms: Members)
    requires t != [] && t[0] == '"' && ReadMember(t) == Ok(ms, rest)
    ensures Read(['{'] + t) == Ok(Obj(ms), rest)
    ensures ReadMembers([','] + t) == Ok(ms, rest)
  {
    hide Read, ReadMember;
    Drop(['{'], t);
    Drop([','], t);
    assert (['{'] + t)[1] == '"';
    UnfoldObj(['{'] + t);
  }

  lemma EmptyRoundTrip(rest: string)
    ensures Read("{}" + rest) == Ok(Obj(NoMember), rest) && Read("[]" + rest) == Ok(Arr(NoElem), rest)
  {
    Drop("{}", rest);
    Drop("[]", rest);
  }

  lemma {:induction false} ObjRoundTrip(ms: Members, rest: string)
    ensures Read(Text(Obj(ms)) + rest) == Ok(Obj(ms), rest)
    decreases ms, 3
  {
    hide Read, ReadMember, ReadMembers;
    if ms.NoMember? {
      EmptyRoundTrip(rest);
    } else {
      MemberRoundTrip(ms, rest);
      Regroup(Quote(ms.key), ":", Text(ms.val), MembersText(ms.rest), rest);
      Opened(MemberText(ms) + rest, rest, ms);
      Assoc(['{'], MemberText(ms), rest);
      assert Text(Obj(ms)) == ['{'] + MemberText(ms);
    }
  }

  function MemberText(ms: Members): string
    requires ms.Member?
  {
    Quote(ms.key) + (":" + (Text(ms.val) + MembersText(ms.rest)))
  }

  lemma {:induction false} MemberRoundTrip(ms: Members, rest: string)
    requires ms.Member?
    ensures ReadMember(Quote(ms.key) + (":" + (Text(ms.val) + (MembersText(ms.rest) + rest)))) == Ok(ms, rest)
    decreases ms, 1
  {
    var back := MembersText(ms.rest) + rest;
    var colon := ":" + (Text(ms.val) + back);
    assert (Quote(ms.key) + colon)[1..] == Escape(ms.key) + ("\"" + colon);
    StringRoundTrip(ms.key, colon);
    assert colon[1..] == Text(ms.val) + back;
    RoundTrip(ms.val, back);
    MembersRoundTrip(ms.rest, rest);
  }

  lemma {:induction false} MembersRoundTrip(ms: Members, rest: string)
    ensures ReadMembers(MembersText(ms) + rest) == Ok(ms, rest)
    decreases ms, 2
  {
    if ms.NoMember? {
      Drop("}", rest);
    } else {
      MemberRoundTrip(ms, rest);
      Regroup(Quote(ms.key), ":", Text(ms.val), MembersText(ms.rest), rest);
      Assoc([','], MemberText(ms), rest);
      Opened(MemberText(ms) + rest, rest, ms);
    }
  }

  // ---------------------------------------------------------------- no newline

  predicate Printable(t: string) { forall c | c in t :: c >= ' ' }

  lemma {:induction false} EscapePrintable(s: string)
    ensures Printable(Escape(s))
  {
    if s != [] { EscapePrintable(s[1..]); }
  }

  /** Control characters are escaped (RFC 8259 section 7), so no encoding holds a newline. */
  lemma {:induction false} NoControl(v: Value)
    ensures Printable(Text(v))
    decreases v
  {
    match v
    case Num(n) => DigitsShape(n);
    case Str(s) => EscapePrintable(s);
    case Arr(Elem(h, t)) => NoControl(h); NoControlElems(t);
    case Obj(Member(k, w, r)) => EscapePrintable(k); NoControl(w); NoControlMembers(r);
    case _ =>
  }

  lemma {:induction false} NoControlElems(es: Elems)
    ensures Printable(ElemsText(es))
    decreases es
  {
    if es.Elem? { NoControl(es.head); NoControlElems(es.tail); }
  }

  lemma {:induction false} NoControlMembers(ms: Members)
    ensures Printable(MembersText(ms))
    decreases ms
  {
    if ms.Member? { EscapePrintable(ms.key); NoControl(ms.val); NoControlMembers(ms.rest); }
  }

  // ---------------------------------------------------------------- cut and glued text

  /** A reader that succeeded on cut text stands where no array or object can go on. */
  predicate Stuck<T>(p: Parsed<T>) {
    p.Ok? ==> p.rest == [] || p.rest[0] !in ",:]}"
  }

  /** What can follow a cut: nothing, or text from a brace on which every reader fails or gets stuck. */
  ghost predicate IsTail(t: string) {
    (t == [] || t[0] == '{') && Stuck(ReadString(t)) && Stuck(Read(t))
  }

  lemma TakeConcat(a: string, b: string, k: nat, t: string)
    requires k <= |a| + |b|
    ensures k <= |a| ==> (a + b)[..k] + t == a[..k] + t
    ensures k >= |a| ==> (a + b)[..k] + t == a + (b[..k - |a|] + t)
  {
    if k >= |a| { assert (a + b)[..k] == a + b[..k - |a|]; }
  }

  lemma CutUnit(c: char, k: nat, t: string)
    requires 0 < k < |EscapeChar(c)| && (t == [] || t[0] == '{')
    ensures ReadUnit(EscapeChar(c)[..k] + t) == NoUnit
  {
    var e := EscapeChar(c);
    var cut := e[..k] + t;
    assert cut[0] == '\\';
    if |e| == 6 {
      assert k > 1 ==> cut[1] == 'u';
      assert k < |cut| ==> cut[k] == '{';
    }
  }

  lemma CutUnitFails(c: char, k: nat, t: string)
    requires 0 < k < |EscapeChar(c)| && (t == [] || t[0] == '{')
    ensures ReadString(EscapeChar(c)[..k] + t) == Fail
  {
    UnitRoundTrip(c, []);
    CutUnit(c, k, t);
    assert (EscapeChar(c)[..k] + t)[0] == EscapeChar(c)[0];
  }

  lemma {:induction false} CutString(s: string, k: nat, t: string)
    requires k <= |Escape(s)| && IsTail(t)
    ensures Stuck(ReadString(Escape(s)[..k] + t))
    ensures t == [] ==> ReadString(Escape(s)[..k] + t) == Fail
  {
    assert t == [] ==> ReadString(t) == Fail;
    hide ReadString, ReadUnit, EscapeChar;
    if k == 0 {
      assert Escape(s)[..k] + t == t;
    } else {
      var e, back := EscapeChar(s[0]), Escape(s[1..]);
      TakeConcat(e, back, k, t);
      if k < |e| {
        CutUnitFails(s[0], k, t);
      } else {
        CutString(s[1..], k - |e|, t);
        NextUnit(s[0], back[..k - |e|] + t);
      }
    }
  }

  lemma {:induction false} CutDigits(n: nat, k: nat, t: string)
    requires 0 < k < |Digits(n)| && (t == [] || t[0] == '{')
    ensures Stuck(Read(Digits(n)[..k] + t))
  {
    DigitsShape(n);
    var cut := Digits(n)[..k] + t;
    assert cut[0] == Digits(n)[0];
    ReadDigitsStops(Digits(n)[..k][1..], t, cut[0] as int - '0' as int);
    assert cut[1..] == Digits(n)[..k][1..] + t;
  }

  lemma {:induction false} ReadDigitsStops(ds: string, t: string, acc: nat)
    requires (forall c | c in ds :: IsDigit(c)) && (t == [] || t[0] == '{')
    ensures ReadDigits(ds + t, acc).1 == t
  {
    if ds == [] {
      assert ds + t == t;
    } else {
      assert (ds + t)[1..] == ds[1..] + t && IsDigit(ds[0]);
      ReadDigitsStops(ds[1..], t, acc * 10 + (ds[0] as int - '0' as int));
    }
  }

  /** A cut value: reading it fails or gets stuck, and a cut object that shows its brace always fails. */
  lemma {:induction false} Cut(v: Value, k: nat, t: string)
    requires k < |Text(v)| && IsTail(t)
    ensures Stuck(Read(Text(v)[..k] + t))
    ensures v.Obj? && k > 0 ==> Read(Text(v)[..k] + t) == Fail
    decreases v, 0
  {
    if k == 0 {
      assert Text(v)[..k] + t == t;
      TailIsStuck(t);
    } else {
      match v
      case Null => CutWord("null", k, t);
      case Bool(b) => CutWord(Text(v), k, t);
      case Num(n) => CutDigits(n, k, t);
      case Str(s) => CutQuote(s, k, t);
      case Arr(es) => CutArr(es, k, t);
      case Obj(ms) => CutObj(ms, k, t);
    }
  }

  lemma CutQuote(s: string, k: nat, t: string)
    requires 0 < k < |Quote(s)| && IsTail(t)
    ensures Stuck(Read(Quote(s)[..k] + t))
  {
    hide ReadString, IsTail;
    Assoc(['"'], Escape(s), ['"']);
    TakeConcat(['"'], Escape(s) + ['"'], k, t);
    TakeConcat(Escape(s), ['"'], k - 1, t);
    CutString(s, k - 1, t);
    Drop(['"'], Escape(s)[..k - 1] + t);
  }

  lemma CutWord(w: string, k: nat, t: string)
    requires w in {"null", "true", "false"} && 0 < k < |w| && (t == [] || t[0] == '{')
    ensures Read(w[..k] + t) == Fail
  {
    var cut := w[..k] + t;
    assert cut[0] == w[0];
    assert |cut| > k ==> cut[k] == '{' && w[k] != '{';
  }

  lemma NotOpened(t: string)
    requires ReadElem(t) == Fail
    ensures t == [] || t[0] != ']' ==> Read(['['] + t) == Fail
    ensures ReadElems([','] + t) == Fail
  {
    hide Read, ReadElem;
    Drop(['['], t);
    Drop([','], t);
    if t == [] || t[0] != ']' {
      assert t != [] ==> (['['] + t)[1] == t[0];
      UnfoldArr(['['] + t);
    }
  }

  lemma NotOpenedObj(t: string)
    requires ReadMember(t) == Fail
    ensures t == [] || t[0] != '}' ==> Read(['{'] + t) == Fail
    ensures ReadMembers([','] + t) == Fail
  {
    hide Read, ReadMember;
    Drop(['{'], t);
    Drop([','], t);
    if t == [] || t[0] != '}' {
      assert t != [] ==> (['{'] + t)[1] == t[0];
      UnfoldObj(['{'] + t);
    }
  }

  lemma TailIsStuck(t: string)
    requires IsTail(t)
    ensures ReadElem(t) == Fail && ReadElems(t) == Fail && ReadMember(t) == Fail && ReadMembers(t) == Fail
    ensures Stuck(Read(t))
  {
  }

  lemma {:induction false} CutArr(es: Elems, k: nat, t: string)
    requires 0 < k < |Text(Arr(es))| && IsTail(t)
    ensures Read(Text(Arr(es))[..k] + t) == Fail
    decreases es, 3
  {
    if es.NoElem? {
      assert "[]"[..k] + t == ['['] + t;
      TailIsStuck(t);
      NotOpened(t);
    } else {
      var first := Text(es.head) + ElemsText(es.tail);
      TextHead(es.head);
      TakeConcat(['['], first, k, t);
      CutElem(es, k - 1, t);
      assert k > 1 ==> (first[..k - 1] + t)[0] == Text(es.head)[0];
      NotOpened(first[..k - 1] + t);
    }
  }

  lemma CutNoDigit(b: string, k: nat, t: string)
    requires b != [] && !IsDigit(b[0]) && k <= |b| && (t == [] || t[0] == '{')
    ensures NoDigit(b[..k] + t)
  {
    if k == 0 { assert b[..k] + t == t; } else { assert (b[..k] + t)[0] == b[0]; }
  }

  lemma StuckMembers(u: string)
    requires Stuck(Read(u))
    ensures Read(u).Ok? ==> ReadMembers(Read(u).rest) == Fail && ReadElems(Read(u).rest) == Fail
  {
    hide Read;
  }

  lemma {:induction false} CutElem(es: Elems, k: nat, t: string)
    requires es.Elem? && k < |Text(es.head) + ElemsText(es.tail)| && IsTail(t)
    ensures ReadElem((Text(es.head) + ElemsText(es.tail))[..k] + t) == Fail
    decreases es, 1
  {
    hide Read, ReadElems, Text;
    var a, b := Text(es.head), ElemsText(es.tail);
    TakeConcat(a, b, k, t);
    if k < |a| {
      Cut(es.head, k, t);
      StuckMembers(a[..k] + t);
    } else {
      CutNoDigit(b, k - |a|, t);
      RoundTrip(es.head, b[..k - |a|] + t);
      CutElems(es.tail, k - |a|, t);
    }
  }

  lemma {:induction false} CutElems(es: Elems, k: nat, t: string)
    requires k < |ElemsText(es)| && IsTail(t)
    ensures ReadElems(ElemsText(es)[..k] + t) == Fail
    decreases es, 2
  {
    if k == 0 {
      assert ElemsText(es)[..k] + t == t;
      TailIsStuck(t);
    } else {
      var first := Text(es.head) + ElemsText(es.tail);
      TakeConcat([','], first, k, t);
      CutElem(es, k - 1, t);
      NotOpened(first[..k - 1] + t);
    }
  }

  lemma {:induction false} CutObj(ms: Members, k: nat, t: string)
    requires 0 < k < |Text(Obj(ms))| && IsTail(t)
    ensures Read(Text(Obj(ms))[..k] + t) == Fail
    decreases ms, 3
  {
    hide Read, ReadMember, Quote;
    if ms.NoMember? {
      assert "{}"[..k] + t == ['{'] + t;
      TailIsStuck(t);
      NotOpenedObj(t);
    } else {
      var first := MemberText(ms);
      assert Text(Obj(ms)) == ['{'] + first;
      TakeConcat(['{'], first, k, t);
      CutMember(ms, k - 1, t);
      assert first[0] == '"' by { QuoteHead(ms.key); }
      assert k > 1 ==> (first[..k - 1] + t)[0] == '"';
      NotOpenedObj(first[..k - 1] + t);
    }
  }

  lemma QuoteHead(s: string)
    ensures Quote(s) != [] && Quote(s)[0] == '"'
  {
  }

  lemma CutKey(key: string, back: string, k: nat, t: string)
    requires 0 < k <= |Escape(key)| + 1 && IsTail(t)
    ensures ReadMember((Quote(key) + back)[..k] + t) == Fail
  {
    hide ReadString, IsTail;
    var cut := (Quote(key) + back)[..k] + t;
    assert Quote(key) + back == "\"" + (Escape(key) + ("\"" + back));
    TakeConcat("\"", Escape(key) + ("\"" + back), k, t);
    TakeConcat(Escape(key), "\"" + back, k - 1, t);
    assert cut[1..] == Escape(key)[..k - 1] + t;
    CutString(key, k - 1, t);
  }

  lemma AfterKey(key: string, colon: string)
    ensures ReadMember(Quote(key) + colon) ==
            (if colon == [] || colon[0] != ':' then Fail
             else match Read(colon[1..])
               case Fail => Fail
               case Ok(v, rest) =>
                 match ReadMembers(rest)
                 case Fail => Fail
                 case Ok(ms, rest') => Ok(Member(key, v, ms), rest'))
  {
    Assoc(['"'] + Escape(key), ['"'], colon);
    Assoc(['"'], Escape(key), ['"'] + colon);
    Drop(['"'], Escape(key) + (['"'] + colon));
    StringRoundTrip(key, colon);
  }

  lemma {:induction false} CutMember(ms: Members, k: nat, t: string)
    requires ms.Member? && k < |MemberText(ms)| && IsTail(t)
    ensures ReadMember(MemberText(ms)[..k] + t) == Fail
    decreases ms, 1
  {
    hide Read, ReadMembers;
    var q, value := |Quote(ms.key)|, Text(ms.val) + MembersText(ms.rest);
    if k == 0 {
      assert MemberText(ms)[..k] + t == t;
      TailIsStuck(t);
    } else if k < q {
      CutKey(ms.key, [':'] + value, k, t);
    } else {
      TakeConcat(Quote(ms.key), [':'] + value, k, t);
      if k > q { CutMemberValue(ms, k - q - 1, t); }
      CutColon(ms.key, value, k - q, t);
    }
  }

  lemma CutColon(key: string, value: string, k: nat, t: string)
    requires k <= 1 + |value| && (t == [] || t[0] == '{')
    requires k > 0 ==> var p := Read(value[..k - 1] + t); p.Ok? ==> ReadMembers(p.rest) == Fail
    ensures ReadMember(Quote(key) + (([':'] + value)[..k] + t)) == Fail
  {
    AfterKey(key, ([':'] + value)[..k] + t);
    if k == 0 {
      assert ([':'] + value)[..k] + t == t;
    } else {
      TakeConcat([':'], value, k, t);
      Drop([':'], value[..k - 1] + t);
    }
  }

  lemma {:induction false} CutMemberValue(ms: Members, k: nat, t: string)
    requires ms.Member? && k < |Text(ms.val) + MembersText(ms.rest)| && IsTail(t)
    ensures var p := Read((Text(ms.val) + MembersText(ms.rest))[..k] + t);
            p.Ok? ==> ReadMembers(p.rest) == Fail
    decreases ms, 0
  {
    hide Read, ReadMembers, Text;
    var a, b := Text(ms.val), MembersText(ms.rest);
    TakeConcat(a, b, k, t);
    if k < |a| {
      Cut(ms.val, k, t);
      StuckMembers(a[..k] + t);
    } else {
      CutNoDigit(b, k - |a|, t);
      RoundTrip(ms.val, b[..k - |a|] + t);
      CutMembers(ms.rest, k - |a|, t);
    }
  }

  lemma {:induction false} CutMembers(ms: Members, k: nat, t: string)
    requires k < |MembersText(ms)| && IsTail(t)
    ensures ReadMembers(MembersText(ms)[..k] + t) == Fail
    decreases ms, 2
  {
    if k == 0 {
      assert MembersText(ms)[..k] + t == t;
      TailIsStuck(t);
    } else {
      TakeConcat([','], MemberText(ms), k, t);
      CutMember(ms, k - 1, t);
      NotOpenedObj(MemberText(ms)[..k - 1] + t);
    }
  }

  // ---------------------------------------------------------------- the facts the journal uses

  /** An object whose first key starts with a plain letter: the shape of every journal line. */
  predicate IsLine(v: Value) {
    v.Obj? && v.members.Member? && v.members.key != [] && 'a' <= v.members.key[0] <= 'z'
  }

  lemma LineParses(v: Value)
    requires IsLine(v)
    ensures Parse(Text(v)) == Some(v)
  {
    RoundTrip(v, []);
    assert Text(v) + [] == Text(v);
  }

  lemma LineHead(v: Value)
    requires IsLine(v)
    ensures |Text(v)| > 2 && Text(v)[0] == '{' && Text(v)[1] == '"' && 'a' <= Text(v)[2] <= 'z'
  {
    var k := v.members.key;
    assert Escape(k) == EscapeChar(k[0]) + Escape(k[1..]);
    assert Text(v)[2] == k[0];
  }

  /** The first `k` bytes of a line's text: what an append that was cut short leaves behind. */
  datatype Piece = Piece(line: Value, k: nat)

  predicate IsPiece(p: Piece) { IsLine(p.line) && 0 < p.k <= |Text(p.line)| }

  predicate Pieces(ps: seq<Piece>) { forall i | 0 <= i < |ps| :: IsPiece(ps[i]) }

  /** Pieces written one behind the other. */
  function Glue(ps: seq<Piece>): string
    requires Pieces(ps)
  {
    if ps == [] then [] else Text(ps[0].line)[..ps[0].k] + Glue(ps[1..])
  }

  /** In a string, a piece reads on from its brace: into what follows, to the quote behind it, or to its first key. */
  lemma PieceInString(p: Piece, t: string)
    requires IsPiece(p) && IsTail(t)
    ensures Stuck(ReadString(Text(p.line)[..p.k] + t))
  {
    LineHead(p.line);
    var r := Text(p.line)[..p.k] + t;
    hide Text, Read, IsLine;
    assert r[0] == '{' && ReadUnit(r) == Unit('{', 1);
    if p.k == 1 {
      assert r[1..] == t;
    } else {
      assert r[1..][0] == '"' && ReadString(r[1..]) == Ok([], r[1..][1..]) && r[1..][1..] == r[2..];
      if p.k == 2 { assert r[2..] == t; } else { assert r[2..][0] == Text(p.line)[2]; }
    }
  }

  lemma PieceInDocument(p: Piece, t: string)
    requires IsPiece(p) && IsTail(t)
    ensures Read(Text(p.line)[..p.k] + t) == if p.k < |Text(p.line)| then Fail else Ok(p.line, t)
  {
    if p.k < |Text(p.line)| {
      Cut(p.line, p.k, t);
    } else {
      assert Text(p.line)[..p.k] == Text(p.line);
      RoundTrip(p.line, t);
    }
  }

  lemma {:induction false} GlueIsTail(ps: seq<Piece>)
    requires Pieces(ps)
    ensures IsTail(Glue(ps)) && (ps != [] ==> Glue(ps) != [])
  {
    if ps != [] {
      GlueIsTail(ps[1..]);
      PieceInString(ps[0], Glue(ps[1..]));
      PieceInDocument(ps[0], Glue(ps[1..]));
      LineHead(ps[0].line);
    }
  }

  /** However many pieces are glued together, the text parses exactly when it is one whole line. */
  lemma GlueParsesIff(ps: seq<Piece>)
    requires Pieces(ps)
    ensures Parse(Glue(ps)) == if |ps| == 1 && ps[0].k == |Text(ps[0].line)| then Some(ps[0].line) else None
  {
    if ps != [] {
      GlueIsTail(ps[1..]);
      PieceInDocument(ps[0], Glue(ps[1..]));
    }
  }

  lemma {:induction false} GlueMore(ps: seq<Piece>, p: Piece)
    requires Pieces(ps) && IsPiece(p)
    ensures Pieces(ps + [p]) && Glue(ps + [p]) == Glue(ps) + Text(p.line)[..p.k]
  {
    if ps == [] {
      assert [] + [p] == [p] && Glue([p][1..]) == [];
      assert Text(p.line)[..p.k] + [] == [] + Text(p.line)[..p.k];
    } else {
      assert (ps + [p])[1..] == ps[1..] + [p];
      GlueMore(ps[1..], p);
      Assoc(Text(ps[0].line)[..ps[0].k], Glue(ps[1..]), Text(p.line)[..p.k]);
    }
  }

  lemma {:induction false} GluePrintable(ps: seq<Piece>)
    requires Pieces(ps)
    ensures Printable(Glue(ps))
  {
    if ps != [] {
      NoControl(ps[0].line);
      GluePrintable(ps[1..]);
      hide Text;
      var a, b := Text(ps[0].line)[..ps[0].k], Glue(ps[1..]);
      forall c | c in a ensures c >= ' ' { assert c in Text(ps[0].line); }
      assert forall c | c in a + b :: c in a || c in b;
    }
  }

  /** No strict prefix of a line decodes. */
  lemma CutNeverParses(v: Value, k: nat)
    requires IsLine(v) && k < |Text(v)|
    ensures Parse(Text(v)[..k]) == None
  {
    if k > 0 {
      assert IsTail([]);
      PieceInDocument(Piece(v, k), []);
      assert Text(v)[..k] + [] == Text(v)[..k];
    }
  }

  /** A non-empty prefix of a line, whole lines included, with another line glued on never decodes. */
  lemma GluedNeverParses(v: Value, k: nat, w: Value)
    requires IsLine(v) && IsLine(w) && 0 < k <= |Text(v)|
    ensures Parse(Text(v)[..k] + Text(w)) == None
  {
    LineHead(w);
    var p, q := Piece(v, k), Piece(w, |Text(w)|);
    GlueParsesIff([p] + [q]);
    GlueMore([], p);
    GlueMore([p], q);
    hide Text, Parse;
    assert [] + [p] == [p] && [] + Text(v)[..k] == Text(v)[..k] && Text(w)[..|Text(w)|] == Text(w);
  }
}
