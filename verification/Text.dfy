/** The text operations of Go's `strings` and `strconv` packages that the parsers below are built from. */
module Text {
  import opened Base

  // ----- lists written with a separator -----

  /** The parts between separators; the empty text has one part, the empty one. */
  function Split(s: string, sep: char): (parts: seq<string>)
    ensures parts != []
    ensures forall p :: p in parts ==> sep !in p
  {
    if s == "" then [""]
    else
      var rest := Split(s[1..], sep);
      if s[0] == sep then [""] + rest else [[s[0]] + rest[0]] + rest[1..]
  }

  function Join(parts: seq<string>, sep: char): string {
    if parts == [] then ""
    else if |parts| == 1 then parts[0]
    else parts[0] + [sep] + Join(parts[1..], sep)
  }

  lemma {:induction false} SplitHead(p: string, s: string, sep: char)
    requires sep !in p
    ensures Split(p + [sep] + s, sep) == [p] + Split(s, sep)
  {
    var t := p + [sep] + s;
    if p == "" {
      assert t[1..] == s;
    } else {
      assert t[1..] == p[1..] + [sep] + s;
      SplitHead(p[1..], s, sep);
      assert [p[0]] + p[1..] == p;
    }
  }

  lemma {:induction false} SplitOne(p: string, sep: char)
    requires sep !in p
    ensures Split(p, sep) == [p]
  {
    if p != "" {
      SplitOne(p[1..], sep);
      assert [p[0]] + p[1..] == p;
    }
  }

  /** Splitting undoes joining when no part holds the separator. */
  lemma {:induction false} SplitJoin(parts: seq<string>, sep: char)
    requires parts != [] && forall p :: p in parts ==> sep !in p
    ensures Split(Join(parts, sep), sep) == parts
  {
    if |parts| == 1 {
      SplitOne(parts[0], sep);
    } else {
      SplitHead(parts[0], Join(parts[1..], sep), sep);
      SplitJoin(parts[1..], sep);
    }
  }

  lemma {:induction false} JoinAppend(parts: seq<string>, p: string, sep: char)
    requires parts != []
    ensures Join(parts + [p], sep) == Join(parts, sep) + [sep] + p
  {
    if |parts| > 1 {
      assert (parts + [p])[1..] == parts[1..] + [p];
      JoinAppend(parts[1..], p, sep);
    } else {
      assert (parts + [p])[1..] == [p];
    }
  }

  /** What holds of the separator and of every character of every part holds of the joined text. */
  lemma {:induction false} JoinChars(parts: seq<string>, sep: char, ok: char -> bool)
    requires forall p, c :: p in parts && c in p ==> ok(c)
    requires ok(sep)
    ensures forall c :: c in Join(parts, sep) ==> ok(c)
  {
    if |parts| > 1 {
      JoinChars(parts[1..], sep, ok);
    }
  }

  /** `strings.Cut`: what is before and behind the first `c`. */
  function Cut(s: string, c: char): (r: Option<(string, string)>)
    ensures r.None? <==> c !in s
    ensures r.Some? ==> c !in r.value.0 && s == r.value.0 + [c] + r.value.1
  {
    if s == "" then None
    else if s[0] == c then Some(("", s[1..]))
    else
      match Cut(s[1..], c)
      case None => None
      case Some(kv) => Some(([s[0]] + kv.0, kv.1))
  }

  lemma {:induction false} CutAt(k: string, v: string, c: char)
    requires c !in k
    ensures Cut(k + [c] + v, c) == Some((k, v))
  {
    var s := k + [c] + v;
    if k == "" {
      assert s[1..] == v;
    } else {
      assert s[1..] == k[1..] + [c] + v;
      CutAt(k[1..], v, c);
      assert [k[0]] + k[1..] == k;
    }
  }

  function TrimPrefix(s: string, prefix: string): string {
    if prefix <= s then s[|prefix|..] else s
  }

  // ----- decimal numbers -----

  predicate IsDigit(c: char) {
    '0' <= c <= '9'
  }

  function DigitValue(c: char): int
    requires IsDigit(c)
  {
    c as int - '0' as int
  }

  function Decimal(s: string): (r: Option<int>)
    ensures r.Some? ==> r.value >= 0
  {
    if s == "" then Some(0)
    else
      var n := |s| - 1;
      match Decimal(s[..n])
      case None => None
      case Some(v) => if IsDigit(s[n]) then Some(v * 10 + DigitValue(s[n])) else None
  }

  const MAX_INT: int := 0x7FFF_FFFF_FFFF_FFFF

  /** `strconv.Atoi`: an optional sign and at least one digit, within 64 bits. */
  function Atoi(s: string): Option<int> {
    var negative := s != "" && s[0] == '-';
    var digits := if s != "" && (s[0] == '-' || s[0] == '+') then s[1..] else s;
    if digits == "" then None
    else
      match Decimal(digits)
      case None => None
      case Some(v) =>
        if negative then if v <= MAX_INT + 1 then Some(-v) else None
        else if v <= MAX_INT then Some(v) else None
  }

  function Digits(n: nat): (s: string)
    ensures s != "" && IsDigit(s[0]) && forall c :: c in s ==> IsDigit(c)
  {
    if n < 10 then [('0' as int + n) as char] else Digits(n / 10) + Digits(n % 10)
  }

  function Itoa(n: int): (s: string)
    ensures s != "" && s[0] != '+' && forall c :: c in s ==> IsDigit(c) || c == '-'
  {
    if n < 0 then "-" + Digits(-n) else Digits(n)
  }

  lemma {:induction false} DecimalDigits(n: nat)
    ensures Decimal(Digits(n)) == Some(n)
  {
    var s := Digits(n);
    if n < 10 {
      assert s[..0] == "";
    } else {
      DecimalDigits(n / 10);
      assert |Digits(n % 10)| == 1 && s[..|s| - 1] == Digits(n / 10);
    }
  }

  lemma AtoiItoa(n: int)
    requires -MAX_INT <= n <= MAX_INT
    ensures Atoi(Itoa(n)) == Some(n)
  {
    var m: nat := if n < 0 then -n else n;
    DecimalDigits(m);
    assert n < 0 ==> Itoa(n)[1..] == Digits(m);
    assert IsDigit(Digits(m)[0]);
  }

  // ----- letters and spaces -----

  /** `unicode.ToUpper`, as far as its results are ASCII: the letters and the two others whose upper case is one. Other
      letters stay; they are not part of any accepted text in either case. */
  function Upper(c: char): char {
    if 'a' <= c <= 'z' then (c as int - 32) as char
    else if c == '\U{0131}' then 'I'
    else if c == '\U{017F}' then 'S'
    else c
  }

  function ToUpper(s: string): string {
    seq(|s|, i requires 0 <= i < |s| => Upper(s[i]))
  }

  /** `unicode.IsSpace`. */
  predicate IsSpace(c: char) {
    '\t' <= c <= '\r' || c == ' ' || c == '\U{0085}' || c == '\U{00A0}' || c == '\U{1680}'
    || '\U{2000}' <= c <= '\U{200A}' || c == '\U{2028}' || c == '\U{2029}' || c == '\U{202F}' || c == '\U{205F}'
    || c == '\U{3000}'
  }

  function TrimSpace(s: string): string {
    if s == "" then ""
    else if IsSpace(s[0]) then TrimSpace(s[1..])
    else if IsSpace(s[|s| - 1]) then TrimSpace(s[..|s| - 1])
    else s
  }
}
