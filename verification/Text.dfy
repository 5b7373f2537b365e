/** Character-level helpers: whitespace, trimming, splitting and decimal numerals.
    Every identifier, address and stored record of the client is built from these. */
module Text {
  import opened Wrappers

  /** The Unicode `White_Space` property, which `char::is_whitespace` tests. */
  predicate IsWhitespace(c: char) {
    var u := c as int;
    0x09 <= u <= 0x0D || u == 0x20 || u == 0x85 || u == 0xA0 || u == 0x1680 || 0x2000 <= u <= 0x200A
    || u == 0x2028 || u == 0x2029 || u == 0x202F || u == 0x205F || u == 0x3000
  }

  /** All twenty-five of them, by code point. */
  lemma WhitespaceByCodePoint(c: char)
    ensures IsWhitespace(c) <==>
            c as int in {9, 10, 11, 12, 13, 32, 133, 160, 5760, 8192, 8193, 8194, 8195, 8196, 8197, 8198, 8199, 8200,
                         8201, 8202, 8232, 8233, 8239, 8287, 12288}
  {
  }

  predicate HasWhitespace(s: string) {
    exists i :: 0 <= i < |s| && IsWhitespace(s[i])
  }

  predicate Blank(s: string) {
    forall i :: 0 <= i < |s| ==> IsWhitespace(s[i])
  }

  /** How many whitespace characters `s` starts with. */
  function LeadingBlanks(s: string): (k: nat)
    ensures k <= |s| && (forall i :: 0 <= i < k ==> IsWhitespace(s[i]))
    ensures k < |s| ==> !IsWhitespace(s[k])
  {
    if s != [] && IsWhitespace(s[0]) then 1 + LeadingBlanks(s[1..]) else 0
  }

  /** The length of `s` without the whitespace it ends with. */
  function BodyLength(s: string): (k: nat)
    ensures k <= |s| && (forall i :: k <= i < |s| ==> IsWhitespace(s[i]))
    ensures k > 0 ==> !IsWhitespace(s[k - 1])
  {
    if s != [] && IsWhitespace(s[|s| - 1]) then BodyLength(s[..|s| - 1]) else |s|
  }

  function Trim(s: string): string {
    var t := s[LeadingBlanks(s)..];
    t[..BodyLength(t)]
  }

  /** `r` is what is left of `s` once the whitespace around it is cut off. */
  ghost predicate Trimmed(s: string, r: string) {
    && (exists k :: 0 <= k <= |s| - |r| && r == s[k..k + |r|] && Blank(s[..k]) && Blank(s[k + |r|..]))
    && (r == [] || (!IsWhitespace(r[0]) && !IsWhitespace(r[|r| - 1])))
  }

  lemma {:induction false} TrimIsTrimmed(s: string)
    ensures Trimmed(s, Trim(s))
    ensures Trim(s) == [] <==> Blank(s)
  {
    hide IsWhitespace, LeadingBlanks, BodyLength;
    var k := LeadingBlanks(s);
    var t := s[k..];
    var r := Trim(s);
    assert r == s[k..k + |r|];
    forall i | k + |r| <= i < |s| ensures IsWhitespace(s[i]) {
      assert s[i] == t[i - k];
    }
    CutIsTrimmed(s, r, k);
    if r != [] {
      assert s[k] == r[0] == t[0];
    }
  }

  lemma CutIsTrimmed(s: string, r: string, k: nat)
    requires k + |r| <= |s| && r == s[k..k + |r|]
    requires forall i :: 0 <= i < k || k + |r| <= i < |s| ==> IsWhitespace(s[i])
    requires r == [] || (!IsWhitespace(r[0]) && !IsWhitespace(r[|r| - 1]))
    ensures Trimmed(s, r)
    ensures r == [] <==> Blank(s)
  {
    hide IsWhitespace;
    assert Blank(s[..k]) && Blank(s[k + |r|..]);
    if r != [] {
      assert s[k] == r[0];
    }
  }

  lemma {:induction false} TrimIsIdempotent(s: string)
    ensures Trim(Trim(s)) == Trim(s)
  {
    TrimIsTrimmed(s);
  }

  /** Splits at every occurrence of `sep`, keeping empty pieces. */
  function Split(s: string, sep: char): (parts: seq<string>)
    ensures |parts| >= 1
  {
    if s == [] then [[]]
    else
      var rest := Split(s[1..], sep);
      if s[0] == sep then [[]] + rest else [[s[0]] + rest[0]] + rest[1..]
  }

  function Join(parts: seq<string>, sep: char): string {
    if parts == [] then []
    else if |parts| == 1 then parts[0]
    else parts[0] + [sep] + Join(parts[1..], sep)
  }

  lemma {:induction false} SplitPiecesAreFree(s: string, sep: char)
    ensures forall p :: p in Split(s, sep) ==> sep !in p
    ensures sep !in s <==> |Split(s, sep)| == 1
    ensures sep !in s ==> Split(s, sep) == [s]
  {
    if s != [] {
      SplitPiecesAreFree(s[1..], sep);
      assert s == [s[0]] + s[1..];
    }
  }

  /** Every piece only uses characters of the text it was cut from. */
  lemma {:induction false} SplitPiecesAreParts(s: string, sep: char, c: char)
    requires c !in s
    ensures forall p :: p in Split(s, sep) ==> c !in p
  {
    if s != [] {
      SplitPiecesAreParts(s[1..], sep, c);
    }
  }

  lemma {:induction false} JoinOfSplit(s: string, sep: char)
    ensures Join(Split(s, sep), sep) == s
  {
    if s != [] {
      JoinOfSplit(s[1..], sep);
      var rest := Split(s[1..], sep);
      if s[0] != sep && |rest| > 1 {
        assert Split(s, sep)[1..] == rest[1..];
      }
    }
  }

  lemma {:induction false} SplitAtFirst(p: string, sep: char, tail: string)
    requires sep !in p
    ensures Split(p + [sep] + tail, sep) == [p] + Split(tail, sep)
  {
    if p == [] {
      assert ([] + [sep] + tail)[1..] == tail;
    } else {
      SplitAtFirst(p[1..], sep, tail);
      assert (p + [sep] + tail)[1..] == p[1..] + [sep] + tail;
      assert p == [p[0]] + p[1..];
    }
  }

  lemma {:induction false} SplitStep(s: string, sep: char)
    requires s != []
    ensures var rest := Split(s[1..], sep);
            Split(s, sep) == if s[0] == sep then [[]] + rest else [[s[0]] + rest[0]] + rest[1..]
  {
  }

  lemma SplitNothing(sep: char)
    ensures Split([], sep) == [[]]
  {
  }

  lemma GrowFirst(c: char, front: seq<string>, back: seq<string>)
    requires front != []
    ensures [[c] + (front + back)[0]] + (front + back)[1..] == [[c] + front[0]] + front[1..] + back
  {
    assert (front + back)[0] == front[0] && (front + back)[1..] == front[1..] + back;
  }

  /** Splitting at one separator among others. */
  lemma {:induction false} SplitAtAny(a: string, sep: char, b: string)
    ensures Split(a + [sep] + b, sep) == Split(a, sep) + Split(b, sep)
  {
    hide Split;
    var s := a + [sep] + b;
    SplitStep(s, sep);
    if a == [] {
      assert s[1..] == b;
      SplitNothing(sep);
    } else {
      assert s[0] == a[0] && s[1..] == a[1..] + [sep] + b;
      SplitAtAny(a[1..], sep, b);
      SplitStep(a, sep);
      if a[0] != sep { GrowFirst(a[0], Split(a[1..], sep), Split(b, sep)); }
    }
  }

  /** Text without the separator joins the first piece of what follows it. */
  lemma {:induction false} SplitAfterFree(a: string, b: string, sep: char)
    requires sep !in a
    ensures Split(a + b, sep) == [a + Split(b, sep)[0]] + Split(b, sep)[1..]
  {
    var parts := Split(b, sep);
    if a == [] {
      assert a + b == b && a + parts[0] == parts[0];
      assert parts == [parts[0]] + parts[1..];
    } else {
      assert a == [a[0]] + a[1..] && (a + b)[1..] == a[1..] + b;
      SplitAfterFree(a[1..], b, sep);
      assert [a[0]] + (a[1..] + Split(b, sep)[0]) == a + Split(b, sep)[0];
    }
  }

  lemma {:induction false} JoinSnoc(parts: seq<string>, last: string, sep: char)
    requires parts != []
    ensures Join(parts + [last], sep) == Join(parts, sep) + [sep] + last
  {
    assert (parts + [last])[1..] == parts[1..] + [last];
    if |parts| > 1 {
      JoinSnoc(parts[1..], last, sep);
    }
  }

  lemma {:induction false} SplitOfJoin(parts: seq<string>, sep: char)
    requires |parts| >= 1
    requires forall p :: p in parts ==> sep !in p
    ensures Split(Join(parts, sep), sep) == parts
  {
    if |parts| == 1 {
      SplitPiecesAreFree(parts[0], sep);
    } else {
      SplitOfJoin(parts[1..], sep);
      SplitAtFirst(parts[0], sep, Join(parts[1..], sep));
    }
  }

  // ----- words ------------------------------------------------------------------------

  /** `split_whitespace`: the maximal runs of characters that are not whitespace. */
  function Words(s: string): (words: seq<string>)
    ensures s != [] && !IsWhitespace(s[0]) ==> words != []
  {
    if s == [] then []
    else
      var rest := Words(s[1..]);
      if IsWhitespace(s[0]) then rest
      else if |s| > 1 && !IsWhitespace(s[1]) then [[s[0]] + rest[0]] + rest[1..]
      else [[s[0]]] + rest
  }

  predicate IsWord(w: string) {
    w != [] && !HasWhitespace(w)
  }

  lemma GrowWord(c: char, w: string)
    requires !IsWhitespace(c) && !HasWhitespace(w)
    ensures IsWord([c] + w)
  {
  }

  lemma {:induction false} WordsAreWords(s: string)
    ensures forall w :: w in Words(s) ==> IsWord(w)
  {
    hide IsWhitespace, IsWord;
    if s != [] {
      var rest := Words(s[1..]);
      WordsAreWords(s[1..]);
      if !IsWhitespace(s[0]) {
        SingleWord(s[0]);
        if |s| > 1 && !IsWhitespace(s[1]) {
          assert rest[0] in rest;
          WordIsUnbroken(rest[0]);
          GrowWord(s[0], rest[0]);
        }
      }
    }
  }

  lemma SingleWord(c: char)
    requires !IsWhitespace(c)
    ensures IsWord([c])
  {
  }

  lemma WordIsUnbroken(w: string)
    requires IsWord(w)
    ensures w != [] && !HasWhitespace(w) && !IsWhitespace(w[0])
  {
  }

  lemma RestOfWord(w: string)
    requires IsWord(w) && |w| > 1
    ensures IsWord(w[1..]) && !IsWhitespace(w[1])
  {
  }

  lemma {:induction false} NextWord(w: string, rest: string)
    requires IsWord(w) && (rest != [] ==> IsWhitespace(rest[0]))
    ensures Words(w + rest) == [w] + Words(rest)
  {
    hide IsWhitespace, IsWord;
    WordIsUnbroken(w);
    var s := w + rest;
    assert s[0] == w[0];
    if |w| == 1 {
      assert s[1..] == rest && w == [w[0]];
    } else {
      RestOfWord(w);
      NextWord(w[1..], rest);
      assert s[1..] == w[1..] + rest && s[1] == w[1] && w == [w[0]] + w[1..];
    }
  }

  lemma {:induction false} SkipBlank(c: char, rest: string)
    requires IsWhitespace(c)
    ensures Words([c] + rest) == Words(rest)
  {
    hide IsWhitespace;
    assert ([c] + rest)[1..] == rest;
  }

  /** Words joined by single spaces come apart into the same words. */
  lemma {:induction false} WordsOfJoin(words: seq<string>)
    requires forall w :: w in words ==> IsWord(w)
    ensures Words(Join(words, ' ')) == words
  {
    hide Words, IsWord;
    NoWords();
    if |words| == 1 {
      assert words[0] + [] == words[0];
      NextWord(words[0], []);
    } else if words != [] {
      var rest := Join(words[1..], ' ');
      WordsOfJoin(words[1..]);
      assert Join(words, ' ') == words[0] + ([' '] + rest);
      SkipBlank(' ', rest);
      NextWord(words[0], [' '] + rest);
    }
  }

  lemma NoWords()
    ensures Words([]) == []
  {
  }

  /** Strict lexicographic order, the order `String` keys are sorted by. */
  predicate LexLess(a: string, b: string) {
    b != [] && (a == [] || a[0] < b[0] || (a[0] == b[0] && LexLess(a[1..], b[1..])))
  }

  /** Dictionary order: at the first difference the smaller character, or the end of the text, comes first. */
  lemma {:induction false} LexIsDictionaryOrder(a: string, b: string)
    ensures LexLess(a, b) <==>
            exists k :: && 0 <= k <= |a| && k < |b| && a[..k] == b[..k]
                        && (k == |a| || (a[k] as int) < b[k] as int)
  {
    if LexLess(a, b) {
      if a == [] || a[0] < b[0] {
        assert a[..0] == b[..0];
      } else {
        LexIsDictionaryOrder(a[1..], b[1..]);
        var k :| && 0 <= k <= |a[1..]| && k < |b[1..]| && a[1..][..k] == b[1..][..k]
                 && (k == |a[1..]| || (a[1..][k] as int) < b[1..][k] as int);
        assert a[..k + 1] == [a[0]] + a[1..][..k] && b[..k + 1] == [b[0]] + b[1..][..k];
      }
    }
    if k :| 0 <= k <= |a| && k < |b| && a[..k] == b[..k] && (k == |a| || (a[k] as int) < b[k] as int) {
      if k > 0 {
        LexIsDictionaryOrder(a[1..], b[1..]);
        assert a[0] == a[..k][0] == b[..k][0] == b[0];
        assert a[1..][..k - 1] == a[..k][1..] && b[1..][..k - 1] == b[..k][1..];
      }
    }
  }

  lemma {:induction false} LexTrichotomy(a: string, b: string)
    ensures LexLess(a, b) || LexLess(b, a) || a == b
    ensures !(LexLess(a, b) && LexLess(b, a))
    ensures !LexLess(a, a)
  {
    if a != [] && b != [] {
      LexTrichotomy(a[1..], b[1..]);
      assert a == [a[0]] + a[1..] && b == [b[0]] + b[1..];
    }
    if a != [] { LexIrreflexive(a); }
  }

  lemma {:induction false} LexIrreflexive(a: string)
    ensures !LexLess(a, a)
  {
    if a != [] { LexIrreflexive(a[1..]); }
  }

  lemma {:induction false} LexTransitive(a: string, b: string, c: string)
    requires LexLess(a, b) && LexLess(b, c)
    ensures LexLess(a, c)
  {
    if a != [] && a[0] == b[0] && b[0] == c[0] {
      LexTransitive(a[1..], b[1..], c[1..]);
    }
  }

  // ----- decimal numerals -------------------------------------------------------------

  predicate IsDigit(c: char) {
    '0' <= c <= '9'
  }

  predicate AllDigits(s: string) {
    forall i :: 0 <= i < |s| ==> IsDigit(s[i])
  }

  function DigitValue(c: char): nat
    requires IsDigit(c)
  {
    c as int - '0' as int
  }

  function Digit(d: nat): (c: char)
    requires d < 10
    ensures IsDigit(c) && DigitValue(c) == d
  {
    ('0' as int + d) as char
  }

  /** The decimal numeral of `n`, without leading zeros. */
  function Decimal(n: nat): (s: string)
    ensures s != [] && AllDigits(s)
  {
    if n < 10 then [Digit(n)] else Decimal(n / 10) + [Digit(n % 10)]
  }

  function DecimalValue(s: string): nat
    requires AllDigits(s)
  {
    if s == [] then 0 else 10 * DecimalValue(s[..|s| - 1]) + DigitValue(s[|s| - 1])
  }

  lemma {:induction false} DecimalValueOfDecimal(n: nat)
    ensures DecimalValue(Decimal(n)) == n
  {
    if n >= 10 {
      DecimalValueOfDecimal(n / 10);
      assert Decimal(n)[..|Decimal(n)| - 1] == Decimal(n / 10);
    }
  }

  /** Numerals are positional, the digits being the ten characters from 48 on. */
  lemma DigitsArePositional(s: string, c: char)
    requires AllDigits(s) && IsDigit(c)
    ensures 48 <= c as int <= 57 && AllDigits(s + [c])
    ensures DecimalValue(s + [c]) == 10 * DecimalValue(s) + (c as int - 48)
    ensures DecimalValue("") == 0
  {
    assert (s + [c])[..|s|] == s;
  }

  lemma DecimalIsInjective(m: nat, n: nat)
    requires Decimal(m) == Decimal(n)
    ensures m == n
  {
    DecimalValueOfDecimal(m);
    DecimalValueOfDecimal(n);
  }

  /** A signed numeral, as `Int.toString` and `Long.toString` print it. */
  function Numeral(n: int): string {
    if n < 0 then "-" + Decimal(-n) else Decimal(n)
  }

  /** `toIntOrNull` and `toLongOrNull`: an optional sign and ASCII digits, in range. */
  function ParseNumeral(s: string, low: int, high: int): Option<int> {
    var signed := s != [] && (s[0] == '-' || s[0] == '+');
    var digits := if signed then s[1..] else s;
    if digits == [] || !AllDigits(digits) then None
    else
      var magnitude: int := DecimalValue(digits);
      var value := if signed && s[0] == '-' then -magnitude else magnitude;
      if low <= value <= high then Some(value) else None
  }

  /** What is read as a number: ASCII digits in range, with or without a sign. */
  lemma NumeralsAreSigned(s: string, low: int, high: int, n: int)
    ensures ParseNumeral(s, low, high) == Some(n) <==>
            && low <= n <= high
            && exists digits :: digits != "" && AllDigits(digits)
                                && ((n == DecimalValue(digits) && (s == digits || s == "+" + digits))
                                    || (n == 0 - DecimalValue(digits) as int && s == "-" + digits))
  {
    if ParseNumeral(s, low, high) == Some(n) {
      var digits := if s[0] == '-' || s[0] == '+' then s[1..] else s;
      assert s == digits || s == [s[0]] + digits;
    }
    if digits :| digits != "" && AllDigits(digits) && low <= n <= high
                 && ((n == DecimalValue(digits) && (s == digits || s == "+" + digits))
                     || (n == 0 - DecimalValue(digits) as int && s == "-" + digits))
    {
      if s == digits {
        assert IsDigit(s[0]);
      } else {
        assert s[1..] == digits;
      }
    }
  }

  lemma {:induction false} ParseOfDigits(digits: string, sign: string, low: int, high: int)
    requires digits != [] && AllDigits(digits) && (sign == "" || sign == "-")
    ensures var magnitude: int := DecimalValue(digits);
            var n := if sign == "-" then -magnitude else magnitude;
            ParseNumeral(sign + digits, low, high) == if low <= n <= high then Some(n) else None
  {
    var s := sign + digits;
    if sign == "" {
      assert s == digits && IsDigit(s[0]);
    } else {
      assert s[0] == '-' && s[1..] == digits;
    }
  }

  lemma {:induction false} ParseOfNumeral(n: int, low: int, high: int)
    ensures ParseNumeral(Numeral(n), low, high) == if low <= n <= high then Some(n) else None
  {
    hide ParseNumeral, Decimal, DecimalValue, AllDigits;
    if n < 0 {
      DecimalValueOfDecimal(-n);
      ParseOfDigits(Decimal(-n), "-", low, high);
    } else {
      DecimalValueOfDecimal(n);
      ParseOfDigits(Decimal(n), "", low, high);
      assert "" + Decimal(n) == Decimal(n);
    }
  }

  lemma NumeralCharacters(n: int)
    ensures forall c :: c in Numeral(n) ==> c == '-' || IsDigit(c)
    ensures Numeral(n) != []
  {
  }
}
