/** JSON pointers: reference tokens, their escaping, and decimal positions. */
module JsonPointers {

  // ------------------------------------------------------------- reference tokens

  function Replace(s: string, ch: char, with: string): string {
    if s == [] then [] else (if s[0] == ch then with else [s[0]]) + Replace(s[1..], ch, with)
  }

  function Escape(key: string): string { Replace(Replace(key, '~', "~0"), '/', "~1") }

  function ReplacePair(s: string, a: char, b: char, with: char): string {
    if |s| < 2 then s
    else if s[0] == a && s[1] == b then [with] + ReplacePair(s[2..], a, b, with)
    else [s[0]] + ReplacePair(s[1..], a, b, with)
  }

  /** Section 4 of RFC 6901: first "~1" and then "~0" is decoded. */
  function Unescape(token: string): string { ReplacePair(ReplacePair(token, '~', '1', '/'), '~', '0', '~') }

  predicate SlashFree(s: string) { '/' !in s }

  lemma ReplaceCons(ch: char, rest: string, a: char, with: string)
    ensures Replace([ch] + rest, a, with) == (if ch == a then with else [ch]) + Replace(rest, a, with)
  {
    assert ([ch] + rest)[1..] == rest;
  }

  lemma PairSkips(ch: char, rest: string, a: char, b: char, with: char)
    requires ch != a || (rest != [] && rest[0] != b)
    ensures ReplacePair([ch] + rest, a, b, with) == [ch] + ReplacePair(rest, a, b, with)
  {
    assert ([ch] + rest)[1..] == rest;
    if rest == [] { assert [ch] + rest == [ch]; }
  }

  lemma PairTakes(a: char, b: char, rest: string, with: char)
    ensures ReplacePair([a, b] + rest, a, b, with) == [with] + ReplacePair(rest, a, b, with)
  {
    assert ([a, b] + rest)[2..] == rest;
  }

  lemma {:induction false} TildesBack(key: string)
    ensures ReplacePair(Replace(key, '~', "~0"), '~', '0', '~') == key
  {
    if key != [] {
      var rest := Replace(key[1..], '~', "~0");
      TildesBack(key[1..]);
      if key[0] == '~' { PairTakes('~', '0', rest, '~'); } else { PairSkips(key[0], rest, '~', '0', '~'); }
    }
  }

  lemma {:induction false} SlashesBack(key: string)
    ensures ReplacePair(Escape(key), '~', '1', '/') == Replace(key, '~', "~0")
  {
    if key != [] {
      var tail := Replace(key[1..], '~', "~0");
      var rest := Escape(key[1..]);
      SlashesBack(key[1..]);
      if key[0] == '~' {
        assert "~0" + tail == ['~'] + (['0'] + tail);
        ReplaceCons('~', ['0'] + tail, '/', "~1");
        ReplaceCons('0', tail, '/', "~1");
        PairSkips('~', ['0'] + rest, '~', '1', '/');
        PairSkips('0', rest, '~', '1', '/');
      } else {
        ReplaceCons(key[0], tail, '/', "~1");
        if key[0] == '/' { PairTakes('~', '1', rest, '/'); } else { PairSkips(key[0], rest, '~', '1', '/'); }
      }
    }
  }

  /** Decoding undoes encoding for every key. */
  lemma EscapeRoundTrip(key: string)
    ensures Unescape(Escape(key)) == key
  {
    SlashesBack(key);
    TildesBack(key);
  }

  lemma {:induction false} ReplacedSlashFree(s: string)
    ensures SlashFree(Replace(s, '/', "~1"))
  {
    if s != [] { ReplacedSlashFree(s[1..]); }
  }

  lemma EscapeSlashFree(key: string)
    ensures SlashFree(Escape(key))
  {
    ReplacedSlashFree(Replace(key, '~', "~0"));
  }

  // ------------------------------------------------------------- positions

  function Digit(n: nat): char
    requires n < 10
  {
    (('0' as int) + n) as char
  }

  function Digits(n: nat): (s: string)
    ensures s != []
  {
    if n < 10 then [Digit(n)] else Digits(n / 10) + [Digit(n % 10)]
  }

  function DigitValue(ch: char): nat { if '0' <= ch <= '9' then ch as int - '0' as int else 0 }

  function Value(s: string): nat {
    if s == [] then 0 else 10 * Value(s[..|s| - 1]) + DigitValue(s[|s| - 1])
  }

  /** Decimal digits only, and no zero in front of another digit. */
  lemma {:induction false} DigitsPlain(n: nat)
    ensures forall k :: 0 <= k < |Digits(n)| ==> '0' <= Digits(n)[k] <= '9'
    ensures Digits(n)[0] == '0' ==> n == 0
    ensures n < 10 ==> |Digits(n)| == 1
  {
    if n >= 10 { DigitsPlain(n / 10); }
  }

  lemma {:induction false} DigitsValue(n: nat)
    ensures Value(Digits(n)) == n && SlashFree(Digits(n))
  {
    if n < 10 {
      assert Value(Digits(n)) == 10 * Value([]) + n;
    } else {
      DigitsValue(n / 10);
      assert Digits(n)[..|Digits(n)| - 1] == Digits(n / 10);
    }
  }

  // ------------------------------------------------------------- pointers

  /** Every token behind its slash. */
  function Pointer(path: seq<string>): string {
    if path == [] then "" else "/" + path[0] + Pointer(path[1..])
  }

  predicate AllSlashFree(path: seq<string>) { forall i :: 0 <= i < |path| ==> SlashFree(path[i]) }

  function FirstToken(s: string): string {
    if s == [] || s[0] == '/' then [] else [s[0]] + FirstToken(s[1..])
  }

  lemma {:induction false} FirstTokenIs(token: string, rest: string)
    requires SlashFree(token) && (rest == [] || rest[0] == '/')
    ensures FirstToken(token + rest) == token
  {
    if token == [] {
      assert token + rest == rest;
    } else {
      assert token[0] in token && forall ch :: ch in token[1..] ==> ch in token;
      FirstTokenIs(token[1..], rest);
      assert (token + rest)[1..] == token[1..] + rest;
    }
  }

  /** Different paths have different pointers. */
  lemma {:induction false} PointerInjective(p: seq<string>, q: seq<string>)
    requires AllSlashFree(p) && AllSlashFree(q) && Pointer(p) == Pointer(q)
    ensures p == q
    decreases |p|
  {
    if p != [] && q != [] {
      var a, b := p[0] + Pointer(p[1..]), q[0] + Pointer(q[1..]);
      assert Pointer(p) == "/" + a && Pointer(q) == "/" + b;
      assert a == Pointer(p)[1..] && b == Pointer(q)[1..];
      FirstTokenIs(p[0], Pointer(p[1..]));
      FirstTokenIs(q[0], Pointer(q[1..]));
      assert Pointer(p[1..]) == a[|p[0]|..] && Pointer(q[1..]) == b[|q[0]|..];
      PointerInjective(p[1..], q[1..]);
      assert p == [p[0]] + p[1..] && q == [q[0]] + q[1..];
    }
  }
}
