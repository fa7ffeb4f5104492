// The text of the first packet: file name, file size and number of chunks.
module Hello {
  import opened Common

  datatype Hello = Hello(name: string, size: int, chunks: int)

  function Digit(d: nat): char
    requires d < 10
  {
    '0' + d as char
  }

  predicate IsDigit(c: char) { '0' <= c <= '9' }

  // A number as printed by %d.
  function Decimal(n: nat): string {
    if n < 10 then [Digit(n)] else Decimal(n / 10) + [Digit(n % 10)]
  }

  function Format(name: string, size: nat, chunks: nat): string {
    name + " " + Decimal(size) + " " + Decimal(chunks)
  }

  // The value of the digits at the front of a string.
  function Number(s: string, acc: int): int {
    if s == "" || !IsDigit(s[0]) then acc else Number(s[1..], 10 * acc + (s[0] - '0') as int)
  }

  function Atoi(s: string): int {
    if s != "" && s[0] == '-' then -Number(s[1..], 0)
    else if s != "" && s[0] == '+' then Number(s[1..], 0)
    else Number(s, 0)
  }

  function SkipBlanks(s: string): (r: string)
    ensures r != "" ==> r[0] != ' '
  {
    if s != "" && s[0] == ' ' then SkipBlanks(s[1..]) else s
  }

  function UpToBlank(s: string): (t: string)
    ensures ' ' !in t && t <= s
    ensures |t| < |s| ==> s[|t|] == ' '
  {
    if s == "" || s[0] == ' ' then "" else [s[0]] + UpToBlank(s[1..])
  }

  // strtok with a blank: the next token and what follows its delimiter.
  function Token(s: string): Option<(string, string)> {
    var u := SkipBlanks(s);
    if u == "" then None
    else
      var t := UpToBlank(u);
      Some((t, if |t| < |u| then u[|t| + 1..] else ""))
  }

  // None where strtok returns a null pointer.
  function Parse(s: string): Option<Hello> {
    match Token(s)
    case None => None
    case Some((name, r1)) =>
      match Token(r1)
      case None => None
      case Some((size, r2)) =>
        match Token(r2)
        case None => None
        case Some((chunks, _)) => Some(Hello(name, Atoi(size), Atoi(chunks)))
  }

  predicate PlainName(name: string) { name != "" && ' ' !in name }

  predicate AllDigits(s: string) { forall i :: 0 <= i < |s| ==> IsDigit(s[i]) }

  predicate AllBlank(s: string) { forall i :: 0 <= i < |s| ==> s[i] == ' ' }

  // Digits only, and no leading zero.
  lemma {:induction false} DecimalDigits(n: nat)
    ensures Decimal(n) != "" && AllDigits(Decimal(n)) && (n > 0 ==> Decimal(n)[0] != '0')
  {
    if n >= 10 {
      DecimalDigits(n / 10);
    }
  }

  lemma {:induction false} NumberAppend(s: string, d: nat, acc: int)
    requires d < 10 && AllDigits(s)
    ensures Number(s + [Digit(d)], acc) == 10 * Number(s, acc) + d
  {
    if s == "" {
      assert s + [Digit(d)] == [Digit(d)];
    } else {
      assert (s + [Digit(d)])[1..] == s[1..] + [Digit(d)];
      NumberAppend(s[1..], d, 10 * acc + (s[0] - '0') as int);
    }
  }

  lemma AtoiDecimal(n: nat)
    ensures Atoi(Decimal(n)) == n
  {
    DecimalDigits(n);
    NumberDecimal(n);
  }

  lemma {:induction false} NumberDecimal(n: nat)
    ensures Number(Decimal(n), 0) == n
  {
    if n >= 10 {
      NumberDecimal(n / 10);
      DecimalDigits(n / 10);
      NumberAppend(Decimal(n / 10), n % 10, 0);
    }
  }

  // Reading a number stops at the first character that is no digit.
  lemma {:induction false} NumberStops(d: string, rest: string, acc: int)
    requires AllDigits(d) && (rest == "" || !IsDigit(rest[0]))
    ensures Number(d + rest, acc) == Number(d, acc)
  {
    if d == "" {
      assert d + rest == rest;
    } else {
      assert (d + rest)[1..] == d[1..] + rest;
      NumberStops(d[1..], rest, 10 * acc + (d[0] - '0') as int);
    }
  }

  // What atoi makes of any word: the value of the digits it starts with, which may be none,
  // with the sign before them.
  lemma AtoiPrefix(d: string, rest: string)
    requires AllDigits(d) && (rest == "" || !IsDigit(rest[0]))
    ensures Atoi("+" + (d + rest)) == Number(d, 0) && Atoi("-" + (d + rest)) == -Number(d, 0)
    ensures d != "" || rest == "" || (rest[0] != '+' && rest[0] != '-') ==> Atoi(d + rest) == Number(d, 0)
  {
    hide Number;
    NumberStops(d, rest, 0);
    assert ("+" + (d + rest))[1..] == d + rest && ("-" + (d + rest))[1..] == d + rest;
    assert d != "" ==> (d + rest)[0] == d[0];
    assert d == "" ==> d + rest == rest;
  }

  lemma {:induction false} SkipBlanksSkips(b: string, s: string)
    requires AllBlank(b) && (s == "" || s[0] != ' ')
    ensures SkipBlanks(b + s) == s
  {
    if b == "" {
      assert b + s == s;
    } else {
      assert (b + s)[1..] == b[1..] + s;
      SkipBlanksSkips(b[1..], s);
    }
  }

  // strtok on any string whatever: blanks before a word are skipped, the blank after it is
  // dropped, and a string of blanks has no word.
  lemma TokenLaw(b: string, t: string, rest: string)
    requires AllBlank(b) && PlainName(t)
    ensures Token(b) == None && Token(b + t) == Some((t, "")) && Token(b + (t + " " + rest)) == Some((t, rest))
  {
    SkipBlanksSkips(b, "");
    assert b + "" == b;
    SkipBlanksSkips(b, t);
    SkipBlanksSkips(b, t + " " + rest);
    TokenOf(t, rest);
    SkipBlanksSkips("", t);
    SkipBlanksSkips("", t + " " + rest);
    assert "" + t == t && "" + (t + " " + rest) == t + " " + rest;
  }

  lemma {:induction false} UpToBlankStops(t: string, rest: string)
    requires ' ' !in t && (rest == "" || rest[0] == ' ')
    ensures UpToBlank(t + rest) == t
  {
    if t == "" {
      assert t + rest == rest;
    } else {
      assert (t + rest)[1..] == t[1..] + rest;
      UpToBlankStops(t[1..], rest);
    }
  }

  lemma TokenOf(t: string, rest: string)
    requires PlainName(t)
    ensures Token(t) == Some((t, "")) && Token(t + " " + rest) == Some((t, rest))
  {
    UpToBlankStops(t, "");
    assert t + "" == t;
    UpToBlankStops(t, " " + rest);
    assert t + " " + rest == t + (" " + rest);
    assert (t + " " + rest)[|t| + 1..] == rest;
  }

  // The server reads back what the client wrote exactly for names without blanks.
  lemma HelloRoundTrip(name: string, size: nat, chunks: nat)
    ensures Parse(Format(name, size, chunks)) == Some(Hello(name, size, chunks)) <==> PlainName(name)
    ensures Parse(Format(name, size, chunks)).Some? && Parse(Format(name, size, chunks)).value.name == name
            ==> PlainName(name)
  {
    var a, b := Decimal(size), Decimal(chunks);
    if PlainName(name) {
      DecimalDigits(size);
      DecimalDigits(chunks);
      AtoiDecimal(size);
      AtoiDecimal(chunks);
      assert Format(name, size, chunks) == name + " " + (a + " " + b);
      TokenOf(name, a + " " + b);
      TokenOf(a, b);
      TokenOf(b, "");
    } else {
      var s := Format(name, size, chunks);
      match Token(s)
      case None =>
      case Some((t, r)) => assert ' ' !in t && t != "";
    }
  }
}
