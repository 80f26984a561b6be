/** The string routines of Go's `strings` and `strconv` packages that the
    controller and the convention server rely on, over Unicode scalar values. */
module Text {
  import opened Wrappers

  // ----- strings.Split and strings.Join with a one-character separator -----

  function Split(s: string, sep: char): (parts: seq<string>)
    ensures |parts| >= 1
  {
    if s == "" then [""]
    else
      var rest := Split(s[1..], sep);
      if s[0] == sep then [""] + rest
      else [[s[0]] + rest[0]] + rest[1..]
  }

  function Join(parts: seq<string>, sep: char): string {
    if |parts| == 0 then ""
    else if |parts| == 1 then parts[0]
    else parts[0] + [sep] + Join(parts[1..], sep)
  }

  ghost predicate FreeOf(parts: seq<string>, sep: char) {
    forall i | 0 <= i < |parts| :: sep !in parts[i]
  }

  lemma {:induction false} SplitIsFree(s: string, sep: char)
    ensures FreeOf(Split(s, sep), sep)
  {
    if s != "" {
      SplitIsFree(s[1..], sep);
    }
  }

  lemma {:induction false} JoinSplit(s: string, sep: char)
    ensures Join(Split(s, sep), sep) == s
  {
    if s != "" {
      JoinSplit(s[1..], sep);
      var rest := Split(s[1..], sep);
      if s[0] == sep {
        assert Split(s, sep)[1..] == rest;
        assert s == [sep] + s[1..];
      } else {
        assert Split(s, sep)[1..] == rest[1..];
        assert s == [s[0]] + s[1..];
      }
    }
  }

  lemma {:induction false} SplitFree(p: string, sep: char)
    requires sep !in p
    ensures Split(p, sep) == [p]
  {
    if p != "" {
      SplitFree(p[1..], sep);
      assert p == [p[0]] + p[1..];
    }
  }

  /** A separator-free head is the first part of what it is joined to. */
  lemma {:induction false} SplitCons(p: string, s: string, sep: char)
    requires sep !in p
    ensures Split(p + [sep] + s, sep) == [p] + Split(s, sep)
  {
    var whole := p + [sep] + s;
    if p == "" {
      assert whole[1..] == s;
    } else {
      SplitCons(p[1..], s, sep);
      assert whole[1..] == p[1..] + [sep] + s;
      assert p == [p[0]] + p[1..];
    }
  }

  lemma {:induction false} SplitJoin(parts: seq<string>, sep: char)
    requires parts != [] && FreeOf(parts, sep)
    ensures Split(Join(parts, sep), sep) == parts
  {
    if |parts| == 1 {
      SplitFree(parts[0], sep);
    } else {
      SplitJoin(parts[1..], sep);
      SplitCons(parts[0], Join(parts[1..], sep), sep);
    }
  }

  lemma {:induction false} JoinAppend(a: seq<string>, b: seq<string>, sep: char)
    requires a != [] && b != []
    ensures Join(a + b, sep) == Join(a, sep) + [sep] + Join(b, sep)
  {
    if |a| == 1 {
      assert (a + b)[1..] == b;
    } else {
      JoinAppend(a[1..], b, sep);
      assert (a + b)[1..] == a[1..] + b;
    }
  }

  // ----- strings.TrimSpace -----

  /** unicode.IsSpace: the White_Space property. */
  predicate IsSpace(c: char) {
    '\t' <= c <= '\r' || c == ' ' || c == '\U{85}' || c == '\U{A0}' || c == '\U{1680}'
    || '\U{2000}' <= c <= '\U{200A}' || c == '\U{2028}' || c == '\U{2029}' || c == '\U{202F}'
    || c == '\U{205F}' || c == '\U{3000}'
  }

  function TrimLeft(s: string): string {
    if s != "" && IsSpace(s[0]) then TrimLeft(s[1..]) else s
  }

  function TrimRight(s: string): string {
    if s != "" && IsSpace(s[|s| - 1]) then TrimRight(s[..|s| - 1]) else s
  }

  function TrimSpace(s: string): string {
    TrimRight(TrimLeft(s))
  }

  /** All white space, one by one. */
  const WHITE_SPACE := "\t\n\U{B}\U{C}\r \U{85}\U{A0}\U{1680}\U{2000}\U{2001}\U{2002}\U{2003}\U{2004}\U{2005}" +
                       "\U{2006}\U{2007}\U{2008}\U{2009}\U{200A}\U{2028}\U{2029}\U{202F}\U{205F}\U{3000}"

  lemma SpacesAreListed(c: char)
    ensures IsSpace(c) <==> c in WHITE_SPACE
  {
    var w := WHITE_SPACE;
    assert |w| == 25;
    if IsSpace(c) {
      SpaceIsListed(c);
    }
  }

  lemma SpaceIsListed(c: char)
    requires IsSpace(c)
    ensures c in WHITE_SPACE
  {
    var w := WHITE_SPACE;
    var k := if c <= '\r' then c as int - 9
      else if c == ' ' then 5 else if c == '\U{85}' then 6 else if c == '\U{A0}' then 7 else if c == '\U{1680}' then 8
      else if c <= '\U{200A}' then 9 + (c as int - 0x2000)
      else if c == '\U{2028}' then 20 else if c == '\U{2029}' then 21 else if c == '\U{202F}' then 22
      else if c == '\U{205F}' then 23 else 24;
    assert w[k] == c;
  }

  /** Neither end of the string is white space; the empty string qualifies. */
  predicate Trimmed(s: string) {
    s == "" || (!IsSpace(s[0]) && !IsSpace(s[|s| - 1]))
  }

  predicate AllTrimmed(parts: seq<string>) {
    forall p | p in parts :: Trimmed(p)
  }

  /** Nothing but white space. */
  predicate Blank(s: string) {
    forall i | 0 <= i < |s| :: IsSpace(s[i])
  }

  lemma {:induction false} TrimLeftFacts(s: string)
    ensures TrimLeft(s) == "" <==> Blank(s)
    ensures TrimLeft(s) != "" ==> !IsSpace(TrimLeft(s)[0]) && TrimLeft(s)[|TrimLeft(s)| - 1] == s[|s| - 1]
    ensures TrimLeft(TrimLeft(s)) == TrimLeft(s)
    ensures forall c | c in TrimLeft(s) :: c in s
  {
    if s != "" && IsSpace(s[0]) {
      TrimLeftFacts(s[1..]);
      assert s == [s[0]] + s[1..];
    }
  }

  lemma {:induction false} TrimRightFacts(s: string)
    ensures TrimRight(s) == "" <==> Blank(s)
    ensures TrimRight(s) != "" ==> !IsSpace(TrimRight(s)[|TrimRight(s)| - 1])
    ensures TrimRight(s) <= s
    ensures TrimRight(TrimRight(s)) == TrimRight(s)
    ensures forall c | c in TrimRight(s) :: c in s
  {
    if s != "" && IsSpace(s[|s| - 1]) {
      TrimRightFacts(s[..|s| - 1]);
      assert s == s[..|s| - 1] + [s[|s| - 1]];
    }
  }

  lemma {:induction false} TrimLeftAppend(a: string, b: string)
    ensures TrimLeft(a + b) == if Blank(a) then TrimLeft(b) else TrimLeft(a) + b
  {
    if a == "" {
      assert a + b == b;
    } else {
      assert (a + b)[0] == a[0] && (a + b)[1..] == a[1..] + b;
      assert a == [a[0]] + a[1..];
      TrimLeftAppend(a[1..], b);
    }
  }

  lemma {:induction false} TrimRightAppend(a: string, b: string)
    ensures TrimRight(a + b) == if Blank(b) then TrimRight(a) else a + TrimRight(b)
  {
    if b == "" {
      assert a + b == a;
    } else {
      var n := |b| - 1;
      assert (a + b)[|a| + n] == b[n] && (a + b)[..|a| + n] == a + b[..n];
      assert b == b[..n] + [b[n]];
      TrimRightAppend(a, b[..n]);
    }
  }

  /** Trimming drops white space from the two ends, and all of it. */
  lemma TrimSpaceIsInside(s: string) returns (left: string, right: string)
    ensures s == left + TrimSpace(s) + right
    ensures Blank(left) && Blank(right) && Trimmed(TrimSpace(s))
  {
    left := LeftPart(s);
    right := RightPart(TrimLeft(s));
    TrimSpaceIsTrimmed(s);
  }

  lemma TrimSpaceIsTrimmed(s: string)
    ensures Trimmed(TrimSpace(s))
  {
    TrimLeftFacts(s);
    TrimRightFacts(TrimLeft(s));
    if TrimSpace(s) != "" {
      assert TrimSpace(s)[0] == TrimLeft(s)[0];
    }
  }

  lemma {:induction false} LeftPart(s: string) returns (left: string)
    ensures Blank(left) && s == left + TrimLeft(s)
  {
    left := "";
    if s != "" && IsSpace(s[0]) {
      var rest := LeftPart(s[1..]);
      left := [s[0]] + rest;
      assert Blank(left) && left[1..] == rest;
      assert s == [s[0]] + (rest + TrimLeft(s[1..])) == left + TrimLeft(s[1..]);
    }
  }

  lemma {:induction false} RightPart(s: string) returns (right: string)
    ensures Blank(right) && s == TrimRight(s) + right
  {
    right := "";
    if s != "" && IsSpace(s[|s| - 1]) {
      var n := |s| - 1;
      var rest := RightPart(s[..n]);
      right := rest + [s[n]];
      assert Blank(right) && s == (TrimRight(s[..n]) + rest) + [s[n]] == TrimRight(s[..n]) + right;
    }
  }

  // The same on lists of words: blank words at an end vanish, and the word behind them is trimmed.

  function TrimStart(words: seq<string>): seq<string> {
    if words == [] then []
    else if Blank(words[0]) then TrimStart(words[1..])
    else [TrimLeft(words[0])] + words[1..]
  }

  function TrimEnd(words: seq<string>): seq<string> {
    if words == [] then []
    else
      var n := |words| - 1;
      if Blank(words[n]) then TrimEnd(words[..n]) else words[..n] + [TrimRight(words[n])]
  }

  function TrimWords(words: seq<string>): seq<string> {
    TrimEnd(TrimStart(words))
  }

  lemma {:induction false} TrimLeftJoin(words: seq<string>)
    ensures TrimLeft(Join(words, ' ')) == Join(TrimStart(words), ' ')
  {
    if |words| == 1 {
      TrimLeftFacts(words[0]);
    } else if |words| > 1 {
      var rest := Join(words[1..], ' ');
      TrimLeftJoin(words[1..]);
      TrimLeftAppend(words[0], " " + rest);
      assert Join(words, ' ') == words[0] + (" " + rest);
      assert (" " + rest)[1..] == rest;
      if !Blank(words[0]) {
        assert TrimStart(words)[1..] == words[1..];
      }
    }
  }

  lemma {:induction false} TrimRightJoin(words: seq<string>)
    ensures TrimRight(Join(words, ' ')) == Join(TrimEnd(words), ' ')
  {
    if words != [] {
      var n := |words| - 1;
      TrimRightFacts(words[n]);
      if n == 0 {
        assert words == [words[0]];
      } else {
        var before := Join(words[..n], ' ');
        JoinAppend(words[..n], [words[n]], ' ');
        assert words == words[..n] + [words[n]];
        TrimRightJoin(words[..n]);
        TrimRightAppend(before + " ", words[n]);
        TrimRightAppend(before, " ");
        if !Blank(words[n]) {
          JoinAppend(words[..n], [TrimRight(words[n])], ' ');
        }
      }
    }
  }

  /** Trimming the text of a list of words trims the list. */
  lemma TrimJoin(words: seq<string>)
    ensures TrimSpace(Join(words, ' ')) == Join(TrimWords(words), ' ')
  {
    TrimLeftJoin(words);
    TrimRightJoin(TrimStart(words));
  }

  /** What is left of the words in front: nothing, or a trimmed word and all that followed it. */
  lemma {:induction false} TrimStartFacts(words: seq<string>)
    ensures var r := TrimStart(words);
      && |r| <= |words|
      && (r != [] ==> r[1..] == words[|words| - |r| + 1..] && r[0] == TrimLeft(words[|words| - |r|]))
      && (r != [] ==> !Blank(r[0]) && TrimLeft(r[0]) == r[0])
      && TrimStart(r) == r
  {
    if words != [] {
      if Blank(words[0]) {
        TrimStartFacts(words[1..]);
      } else {
        TrimLeftFacts(words[0]);
        TrimLeftFacts(TrimLeft(words[0]));
      }
    }
  }

  lemma {:induction false} TrimEndFacts(words: seq<string>)
    ensures var r := TrimEnd(words);
      && |r| <= |words|
      && (r != [] ==> r == words[..|r| - 1] + [TrimRight(words[|r| - 1])])
      && (r != [] ==> !Blank(r[|r| - 1]) && TrimRight(r[|r| - 1]) == r[|r| - 1])
      && TrimEnd(r) == r
  {
    if words != [] {
      var n := |words| - 1;
      if Blank(words[n]) {
        TrimEndFacts(words[..n]);
        var r := TrimEnd(words[..n]);
        assert r != [] ==> words[..n][..|r| - 1] == words[..|r| - 1];
      } else {
        TrimRightFacts(words[n]);
        TrimRightFacts(TrimRight(words[n]));
        assert (words[..n] + [TrimRight(words[n])])[..n] == words[..n];
      }
    }
  }

  lemma {:induction false} TrimStartAppend(a: seq<string>, b: seq<string>)
    ensures TrimStart(a + b) == if TrimStart(a) == [] then TrimStart(b) else TrimStart(a) + b
  {
    if a == [] {
      assert a + b == b;
    } else {
      assert (a + b)[1..] == a[1..] + b;
      TrimStartAppend(a[1..], b);
    }
  }

  lemma TrimEndAppend(a: seq<string>, last: string)
    ensures TrimEnd(a + [last]) == if Blank(last) then TrimEnd(a) else a + [TrimRight(last)]
  {
    assert (a + [last])[..|a|] == a;
  }

  // ----- string order, as used by sort.Strings -----

  predicate Less(a: string, b: string) {
    b != "" && (a == "" || a[0] < b[0] || (a[0] == b[0] && Less(a[1..], b[1..])))
  }

  lemma {:induction false} LessIrreflexive(a: string)
    ensures !Less(a, a)
  {
    if a != "" {
      LessIrreflexive(a[1..]);
    }
  }

  lemma {:induction false} LessTransitive(a: string, b: string, c: string)
    requires Less(a, b) && Less(b, c)
    ensures Less(a, c)
  {
    if a != "" && a[0] == b[0] == c[0] {
      LessTransitive(a[1..], b[1..], c[1..]);
    }
  }

  lemma {:induction false} LessTotal(a: string, b: string)
    requires a != b
    ensures Less(a, b) || Less(b, a)
  {
    if a != "" && b != "" && a[0] == b[0] {
      assert a == [a[0]] + a[1..] && b == [b[0]] + b[1..];
      LessTotal(a[1..], b[1..]);
    }
  }

  /** The order of Go's strings: a proper prefix comes first, otherwise the first difference decides. */
  ghost predicate Precedes(a: string, b: string) {
    a != b && (a <= b || exists n: nat :: DiffersFirst(a, b, n))
  }

  predicate DiffersFirst(a: string, b: string, n: nat) {
    n < |a| && n < |b| && a[..n] == b[..n] && a[n] < b[n]
  }

  lemma {:induction false} LessIsPrecedes(a: string, b: string)
    ensures Less(a, b) <==> Precedes(a, b)
  {
    if a != "" && b != "" {
      assert a == [a[0]] + a[1..] && b == [b[0]] + b[1..];
      if a[0] < b[0] {
        assert DiffersFirst(a, b, 0);
      } else if a[0] == b[0] {
        LessIsPrecedes(a[1..], b[1..]);
        DiffersLater(a, b);
      } else {
        assert forall n: nat | DiffersFirst(a, b, n) && n > 0 :: a[..n][0] == b[..n][0];
      }
    }
  }

  lemma DiffersLater(a: string, b: string)
    requires a != "" && b != "" && a[0] == b[0]
    ensures Precedes(a, b) <==> Precedes(a[1..], b[1..])
  {
    assert a == [a[0]] + a[1..] && b == [b[0]] + b[1..];
    forall n: nat ensures DiffersFirst(a[1..], b[1..], n) <==> DiffersFirst(a, b, n + 1) {
      if n < |a| - 1 && n < |b| - 1 {
        assert a[..n + 1] == [a[0]] + a[1..][..n] && b[..n + 1] == [b[0]] + b[1..][..n];
        assert a[1..][..n] == a[..n + 1][1..] && b[1..][..n] == b[..n + 1][1..];
      }
    }
    if n: nat :| DiffersFirst(a, b, n) {
      assert n > 0 && DiffersFirst(a[1..], b[1..], n - 1);
    }
    if n: nat :| DiffersFirst(a[1..], b[1..], n) {
      assert DiffersFirst(a, b, n + 1);
    }
  }

  // ----- strconv.Itoa and strconv.Atoi on a 64-bit machine -----

  predicate IsDigit(c: char) { '0' <= c <= '9' }

  predicate AllDigits(s: string) {
    forall i | 0 <= i < |s| :: IsDigit(s[i])
  }

  function DigitsToNat(s: string): nat
    requires AllDigits(s)
  {
    if s == "" then 0
    else DigitsToNat(s[..|s| - 1]) * 10 + (s[|s| - 1] as int - '0' as int)
  }

  function NatToDigits(n: nat): (s: string)
    ensures s != "" && AllDigits(s)
  {
    var last := ('0' as int + n % 10) as char;
    if n < 10 then [last] else NatToDigits(n / 10) + [last]
  }

  function Itoa(n: int): string {
    if n < 0 then "-" + NatToDigits(-n) else NatToDigits(n)
  }

  const INT64_LIMIT: int := 0x8000_0000_0000_0000

  function Atoi(s: string): Option<int> {
    var signed := s != "" && (s[0] == '-' || s[0] == '+');
    var body := if signed then s[1..] else s;
    if body == "" || !AllDigits(body) then None
    else
      var magnitude: int := DigitsToNat(body);
      var n: int := if s[0] == '-' then -magnitude else magnitude;
      if -INT64_LIMIT <= n < INT64_LIMIT then Some(n) else None
  }

  /** Go's int32(n) conversion: two's complement wrap-around. */
  function ToInt32(n: int): (r: int)
    ensures -0x8000_0000 <= r < 0x8000_0000
  {
    (n + 0x8000_0000) % 0x1_0000_0000 - 0x8000_0000
  }

  lemma {:induction false} DigitsRoundTrip(n: nat)
    ensures DigitsToNat(NatToDigits(n)) == n
  {
    var last := ('0' as int + n % 10) as char;
    if n >= 10 {
      DigitsRoundTrip(n / 10);
      var s := NatToDigits(n);
      assert s[..|s| - 1] == NatToDigits(n / 10);
    } else {
      assert NatToDigits(n)[..0] == "";
    }
  }

  lemma AtoiItoa(n: int)
    requires -INT64_LIMIT <= n < INT64_LIMIT
    ensures Atoi(Itoa(n)) == Some(n)
  {
    var m := if n < 0 then -n else n;
    DigitsRoundTrip(m);
    if n < 0 {
      assert Itoa(n)[1..] == NatToDigits(m);
    } else {
      assert IsDigit(NatToDigits(m)[0]);
    }
  }

  /** Decimal text, in the ten digits. */
  lemma DecimalDigits()
    ensures Itoa(8080) == "8080" && Itoa(1234567) == "1234567" && Itoa(-90) == "-90"
  {
    assert NatToDigits(808) == NatToDigits(80) + ['8'] && NatToDigits(80) == NatToDigits(8) + ['0'];
    assert NatToDigits(12) == NatToDigits(1) + ['2'] && NatToDigits(123) == NatToDigits(12) + ['3'];
    assert NatToDigits(1234) == NatToDigits(123) + ['4'] && NatToDigits(12345) == NatToDigits(1234) + ['5'];
    assert NatToDigits(123456) == NatToDigits(12345) + ['6'];
    assert NatToDigits(90) == NatToDigits(9) + ['0'];
  }

  /** Zeros in front of a number. */
  predicate Zeros(s: string) {
    forall i | 0 <= i < |s| :: s[i] == '0'
  }

  lemma {:induction false} ZerosDoNotCount(zeros: string, s: string)
    requires Zeros(zeros) && AllDigits(s)
    ensures AllDigits(zeros + s) && DigitsToNat(zeros + s) == DigitsToNat(s)
  {
    if s == "" {
      if zeros != "" {
        var n := |zeros| - 1;
        ZerosDoNotCount(zeros[..n], "");
        assert zeros + "" == zeros && zeros[..n] + "" == zeros[..n];
      } else {
        assert zeros + s == "";
      }
    } else {
      var n := |s| - 1;
      ZerosDoNotCount(zeros, s[..n]);
      assert (zeros + s)[..|zeros + s| - 1] == zeros + s[..n];
    }
  }

  /** Digits are zeros in front of the decimal text of their number. */
  lemma {:induction false} DigitsAreDecimal(s: string) returns (zeros: string)
    requires s != "" && AllDigits(s)
    ensures Zeros(zeros) && s == zeros + NatToDigits(DigitsToNat(s))
  {
    var n := |s| - 1;
    assert s == s[..n] + [s[n]];
    zeros := "";
    if n == 0 {
      DigitIsDecimal(s[0]);
      assert s[..0] == "" && DigitsToNat(s) == s[0] as int - '0' as int;
    } else {
      zeros := DigitsAreDecimal(s[..n]);
      zeros := OneMoreDigit(zeros, DigitsToNat(s[..n]), s[n]);
    }
  }

  lemma DigitIsDecimal(digit: char)
    requires IsDigit(digit)
    ensures NatToDigits(digit as int - '0' as int) == [digit]
  {
  }

  lemma OneMoreDigit(zeros: string, front: nat, last: char) returns (more: string)
    requires Zeros(zeros) && IsDigit(last)
    ensures var n := front * 10 + (last as int - '0' as int);
      Zeros(more) && zeros + NatToDigits(front) + [last] == more + NatToDigits(n)
  {
    more := zeros;
    var n := front * 10 + (last as int - '0' as int);
    assert n / 10 == front && n % 10 == last as int - '0' as int;
    if front == 0 {
      more := zeros + "0";
      DigitIsDecimal('0');
      DigitIsDecimal(last);
    } else {
      assert NatToDigits(n) == NatToDigits(front) + [last];
    }
  }

  /** The text is an optional sign, zeros, and the decimal text of the number without its sign. */
  ghost predicate Denotes(s: string, n: int) {
    exists zeros :: Zeros(zeros) && DenotesBehind(s, zeros, n)
  }

  predicate DenotesBehind(s: string, zeros: string, n: int) {
    if n < 0 then s == "-" + zeros + Itoa(-n)
    else s == zeros + Itoa(n) || s == "+" + zeros + Itoa(n) || (n == 0 && s == "-" + zeros + Itoa(n))
  }

  /** What Atoi accepts, and as what: exactly such texts of 64-bit numbers. */
  lemma AtoiDenotes(s: string, n: int)
    ensures Atoi(s) == Some(n) <==> -0x8000_0000_0000_0000 <= n < 0x8000_0000_0000_0000 && Denotes(s, n)
  {
    if Atoi(s) == Some(n) {
      ReadIsDenoted(s, n);
    } else if -INT64_LIMIT <= n < INT64_LIMIT && Denotes(s, n) {
      var zeros :| Zeros(zeros) && DenotesBehind(s, zeros, n);
      DenotedIsRead(s, zeros, n);
    }
  }

  lemma ReadIsDenoted(s: string, n: int)
    requires Atoi(s) == Some(n)
    ensures -INT64_LIMIT <= n < INT64_LIMIT && Denotes(s, n)
  {
    var signed := s[0] == '-' || s[0] == '+';
    var body := if signed then s[1..] else s;
    var zeros := DigitsAreDecimal(body);
    assert signed ==> s == [s[0]] + zeros + Itoa(DigitsToNat(body));
    assert DenotesBehind(s, zeros, n);
  }

  lemma DenotedIsRead(s: string, zeros: string, n: int)
    requires Zeros(zeros) && DenotesBehind(s, zeros, n) && -INT64_LIMIT <= n < INT64_LIMIT
    ensures Atoi(s) == Some(n)
  {
    var m := if n < 0 then -n else n;
    var digits := NatToDigits(m);
    var body := zeros + digits;
    assert AllDigits(body) && DigitsToNat(body) == m by {
      ZerosDoNotCount(zeros, digits);
      DigitsRoundTrip(m);
    }
    assert Itoa(m) == digits;
    if s == body {
      UnsignedIsRead(s, m);
    } else {
      assert "-" + zeros + digits == "-" + body && "+" + zeros + digits == "+" + body;
      SignedIsRead(s, body, m);
    }
  }

  lemma UnsignedIsRead(s: string, m: nat)
    requires s != "" && AllDigits(s) && DigitsToNat(s) == m < INT64_LIMIT
    ensures Atoi(s) == Some(m)
  {
    assert IsDigit(s[0]);
  }

  lemma SignedIsRead(s: string, body: string, m: nat)
    requires body != "" && AllDigits(body) && DigitsToNat(body) == m
    requires (s == "-" + body && m <= INT64_LIMIT) || (s == "+" + body && m < INT64_LIMIT)
    ensures Atoi(s) == Some(if s[0] == '-' then 0 - m as int else m as int)
  {
    assert s[1..] == body;
  }

  /** The conversion drops multiples of 2^32 and leaves 32-bit numbers as they are. */
  lemma ToInt32Wraps(n: int)
    ensures (n - ToInt32(n)) % 0x1_0000_0000 == 0
    ensures -0x8000_0000 <= n < 0x8000_0000 ==> ToInt32(n) == n
  {
  }

  lemma ItoaIsWord(n: int)
    ensures Itoa(n) != "" && forall i | 0 <= i < |Itoa(n)| :: IsDigit(Itoa(n)[i]) || Itoa(n)[i] == '-'
  {
  }
}
