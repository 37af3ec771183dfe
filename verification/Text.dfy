/** The string functions the parser and the client call, over strings of Unicode code points. */
module Text {
  import opened Prelude

  predicate IsSpace(c: char)
  {
    || '\t' <= c <= '\r' || c == ' ' || c == '\U{85}' || c == '\U{A0}'
    || c == '\U{1680}' || '\U{2000}' <= c <= '\U{200A}' || c == '\U{2028}' || c == '\U{2029}'
    || c == '\U{202F}' || c == '\U{205F}' || c == '\U{3000}'
  }

  predicate IsBreak(c: char)
  {
    c == '\r' || c == '\n'
  }

  function TrimLeft(s: string, cut: char -> bool): string
  {
    if s != "" && cut(s[0]) then TrimLeft(s[1..], cut) else s
  }

  function TrimRight(s: string, cut: char -> bool): string
  {
    if s != "" && cut(s[|s| - 1]) then TrimRight(s[..|s| - 1], cut) else s
  }

  function TrimSpace(s: string): string
  {
    TrimRight(TrimLeft(s, IsSpace), IsSpace)
  }

  /** No margin left to trim. */
  predicate Trimmed(s: string)
  {
    s == "" || (!IsSpace(s[0]) && !IsSpace(s[|s| - 1]))
  }

  lemma {:induction false} TrimLeftHead(s: string)
    ensures var t := TrimLeft(s, IsSpace); t == "" || !IsSpace(t[0])
    decreases |s|
  {
    if s != "" && IsSpace(s[0]) {
      TrimLeftHead(s[1..]);
    }
  }

  lemma {:induction false} TrimRightEnds(s: string)
    ensures var t := TrimRight(s, IsSpace);
      t <= s && (t == "" || !IsSpace(t[|t| - 1]))
    decreases |s|
  {
    if s != "" && IsSpace(s[|s| - 1]) {
      TrimRightEnds(s[..|s| - 1]);
    }
  }

  /** TrimSpace leaves no margin. */
  lemma TrimSpaceTrims(s: string)
    ensures Trimmed(TrimSpace(s))
  {
    TrimLeftHead(s);
    TrimRightEnds(TrimLeft(s, IsSpace));
  }

  /** And changes nothing where there is none. */
  lemma TrimmedStays(s: string)
    requires Trimmed(s)
    ensures TrimSpace(s) == s && TrimRight(s, IsBreak) == s
  {
  }

  /** The number of leading characters that are not white space. */
  function WordLength(s: string): (n: nat)
    ensures n <= |s|
    ensures n < |s| ==> IsSpace(s[n])
    ensures s != "" && !IsSpace(s[0]) ==> n > 0
    ensures forall i :: 0 <= i < n ==> !IsSpace(s[i])
  {
    if s == "" || IsSpace(s[0]) then 0 else 1 + WordLength(s[1..])
  }

  lemma {:induction false} TrimLeftShorter(s: string)
    ensures |TrimLeft(s, IsSpace)| <= |s|
    decreases |s|
  {
    if s != "" && IsSpace(s[0]) {
      TrimLeftShorter(s[1..]);
    }
  }

  /** The words between runs of white space. */
  function Fields(s: string): seq<string>
    decreases |s|
  {
    TrimLeftHead(s);
    TrimLeftShorter(s);
    var t := TrimLeft(s, IsSpace);
    if t == "" then []
    else
      var n := WordLength(t);
      [t[..n]] + Fields(t[n..])
  }

  /** The first word of a trimmed line starts where the line starts. */
  lemma FirstWord(s: string)
    requires Trimmed(s) && s != ""
    ensures Fields(s) != [] && Fields(s)[0] != "" && Fields(s)[0] <= s
    ensures |Fields(s)| == 1 <==> Fields(s)[0] == s
    ensures Fields(s)[0] == s <==> forall i :: 0 <= i < |s| ==> !IsSpace(s[i])
  {
    var n := WordLength(s);
    assert TrimLeft(s, IsSpace) == s;
    if n < |s| {
      var rest := s[n..];
      LastWordSurvives(rest);
    } else {
      assert s[..n] == s && s[n..] == "";
      assert Fields("") == [];
    }
  }

  lemma {:induction false} LastWordSurvives(s: string)
    requires s != "" && !IsSpace(s[|s| - 1])
    ensures TrimLeft(s, IsSpace) != "" && Fields(s) != []
    decreases |s|
  {
    if IsSpace(s[0]) {
      LastWordSurvives(s[1..]);
    }
  }

  // ----- words and the white space between them ----------------------------------------------

  predicate IsWord(w: string)
  {
    w != "" && forall i :: 0 <= i < |w| ==> !IsSpace(w[i])
  }

  predicate AllSpace(g: string)
  {
    forall i :: 0 <= i < |g| ==> IsSpace(g[i])
  }

  /** White space behind each word; none is needed behind the last. */
  predicate AreGaps(gaps: seq<string>)
  {
    forall i :: 0 <= i < |gaps| ==> AllSpace(gaps[i]) && (i < |gaps| - 1 ==> gaps[i] != "")
  }

  predicate AreWords(words: seq<string>)
  {
    forall i :: 0 <= i < |words| ==> IsWord(words[i])
  }

  function Spread(words: seq<string>, gaps: seq<string>): string
    requires |gaps| == |words|
  {
    if words == [] then "" else words[0] + (gaps[0] + Spread(words[1..], gaps[1..]))
  }

  lemma {:induction false} TrimLeftSpace(g: string, rest: string)
    requires AllSpace(g) && (rest == "" || !IsSpace(rest[0]))
    ensures TrimLeft(g + rest, IsSpace) == rest
    decreases |g|
  {
    if g == "" {
      assert g + rest == rest;
    } else {
      assert (g + rest)[1..] == g[1..] + rest;
      TrimLeftSpace(g[1..], rest);
    }
  }

  lemma {:induction false} TrimRightSpace(rest: string, g: string)
    requires AllSpace(g) && (rest == "" || !IsSpace(rest[|rest| - 1]))
    ensures TrimRight(rest + g, IsSpace) == rest
    decreases |g|
  {
    if g == "" {
      assert rest + g == rest;
    } else {
      assert (rest + g)[..|rest + g| - 1] == rest + g[..|g| - 1];
      TrimRightSpace(rest, g[..|g| - 1]);
    }
  }

  /** TrimSpace takes off exactly the white space around what has none of its own. */
  lemma TrimMargins(lead: string, core: string, trail: string)
    requires AllSpace(lead) && AllSpace(trail) && core != "" && Trimmed(core)
    ensures TrimSpace(lead + core + trail) == core
  {
    assert lead + core + trail == lead + (core + trail);
    TrimLeftSpace(lead, core + trail);
    TrimRightSpace(core, trail);
  }

  /** And of white space alone it leaves nothing. */
  lemma TrimBlank(line: string)
    requires AllSpace(line)
    ensures TrimSpace(line) == ""
  {
    assert line + "" == line;
    TrimLeftSpace(line, "");
  }

  lemma {:induction false} WordEnds(w: string, rest: string)
    requires (forall i :: 0 <= i < |w| ==> !IsSpace(w[i])) && (rest == "" || IsSpace(rest[0]))
    ensures WordLength(w + rest) == |w|
    decreases |w|
  {
    if w == "" {
      assert w + rest == rest;
    } else {
      assert (w + rest)[1..] == w[1..] + rest;
      WordEnds(w[1..], rest);
    }
  }

  /** What stands behind a word begins with white space, or is empty. */
  lemma BehindWord(words: seq<string>, gaps: seq<string>)
    requires |gaps| == |words| > 0 && AreGaps(gaps)
    ensures var rest := gaps[0] + Spread(words[1..], gaps[1..]); rest == "" || IsSpace(rest[0])
  {
    if |words| == 1 {
      assert Spread(words[1..], gaps[1..]) == "";
    }
  }

  /** The words of a line are the words it is made of, whatever white space stands around them. */
  lemma {:induction false} FieldsSpread(lead: string, words: seq<string>, gaps: seq<string>)
    requires AllSpace(lead) && |gaps| == |words| && AreWords(words) && AreGaps(gaps)
    ensures Fields(lead + Spread(words, gaps)) == words
    decreases |words|
  {
    var s := lead + Spread(words, gaps);
    TrimLeftSpace(lead, Spread(words, gaps));
    if words != [] {
      var w, rest := words[0], gaps[0] + Spread(words[1..], gaps[1..]);
      assert TrimLeft(s, IsSpace) == w + rest;
      BehindWord(words, gaps);
      WordEnds(w, rest);
      assert (w + rest)[..|w|] == w && (w + rest)[|w|..] == rest;
      FieldsSpread(gaps[0], words[1..], gaps[1..]);
      assert words == [w] + words[1..];
    }
  }

  /** A line without its white space. */
  function Squeeze(s: string): string
  {
    if s == "" then "" else if IsSpace(s[0]) then Squeeze(s[1..]) else [s[0]] + Squeeze(s[1..])
  }

  lemma {:induction false} SqueezeTrimmed(s: string)
    ensures Squeeze(TrimLeft(s, IsSpace)) == Squeeze(s)
    decreases |s|
  {
    if s != "" && IsSpace(s[0]) {
      SqueezeTrimmed(s[1..]);
    }
  }

  lemma {:induction false} SqueezeWord(w: string, rest: string)
    requires forall i :: 0 <= i < |w| ==> !IsSpace(w[i])
    ensures Squeeze(w + rest) == w + Squeeze(rest)
    decreases |w|
  {
    if w == "" {
      assert w + rest == rest;
    } else {
      assert (w + rest)[1..] == w[1..] + rest;
      SqueezeWord(w[1..], rest);
      assert [w[0]] + (w[1..] + Squeeze(rest)) == w + Squeeze(rest);
    }
  }

  /** Fields loses nothing but white space: the pieces are words, and together they are the line
    * without its white space. */
  lemma {:induction false} FieldsAreWords(s: string)
    ensures AreWords(Fields(s)) && Flatten(Fields(s)) == Squeeze(s)
    decreases |s|
  {
    TrimLeftHead(s);
    TrimLeftShorter(s);
    SqueezeTrimmed(s);
    var t := TrimLeft(s, IsSpace);
    if t != "" {
      var n := WordLength(t);
      FieldsAreWords(t[n..]);
      assert t == t[..n] + t[n..];
      SqueezeWord(t[..n], t[n..]);
      assert Fields(s) == [t[..n]] + Fields(t[n..]);
    }
  }

  /** The white space behind the last word is margin. */
  lemma {:induction false} SpreadEnds(words: seq<string>, gaps: seq<string>)
    requires |gaps| == |words| > 0 && AreWords(words)
    ensures var last := |gaps| - 1; var core := Spread(words, gaps[last := ""]);
      Spread(words, gaps) == core + gaps[last] && core != "" && Trimmed(core)
    decreases |words|
  {
    var last := |gaps| - 1;
    var w, gaps' := words[0], gaps[last := ""];
    if |words| == 1 {
      assert Spread(words[1..], gaps[1..]) == Spread(words[1..], gaps'[1..]) == "";
      assert Spread(words, gaps') == w;
    } else {
      SpreadEnds(words[1..], gaps[1..]);
      assert gaps'[1..] == gaps[1..][last - 1 := ""];
      var core := Spread(words[1..], gaps'[1..]);
      assert Spread(words, gaps') == w + (gaps[0] + core);
      assert Spread(words, gaps) == w + (gaps[0] + (core + gaps[last])) == w + (gaps[0] + core) + gaps[last];
    }
  }

  function ToLower(lower: char -> char, s: string): (r: string)
    ensures |r| == |s|
    ensures forall i :: 0 <= i < |s| ==> r[i] == lower(s[i])
  {
    seq(|s|, i requires 0 <= i < |s| => lower(s[i]))
  }

  /** What is assumed of the library's lower-casing of one character: white space and the two
    * command prefixes are their own lower case, and nothing else becomes one of them; a to z are
    * their own lower case. */
  ghost predicate LowerLaw(lower: char -> char)
  {
    && (forall c :: IsSpace(c) || c == '!' || c == '+' ==> lower(c) == c)
    && (forall c :: IsSpace(lower(c)) || lower(c) == '!' || lower(c) == '+' ==> lower(c) == c)
    && (forall c :: 'a' <= c <= 'z' ==> lower(c) == c)
  }

  function AsciiLower(c: char): char
  {
    if 'A' <= c <= 'Z' then ((c as int) + 32) as char else c
  }

  lemma LowerLawSatisfiable()
    ensures LowerLaw(AsciiLower)
  {
  }

  // ----- separators --------------------------------------------------------------------------

  /** The position of the first c, or |s|. */
  function Find(s: string, c: char): (i: nat)
    ensures i <= |s|
    ensures i < |s| ==> s[i] == c
    ensures forall j :: 0 <= j < i ==> s[j] != c
  {
    if s == "" || s[0] == c then 0 else 1 + Find(s[1..], c)
  }

  /** One past the position of the last c, or 0. */
  function FindLast(s: string, c: char): (i: nat)
    ensures i <= |s|
    ensures i > 0 ==> s[i - 1] == c
    ensures forall j :: i <= j < |s| ==> s[j] != c
    decreases |s|
  {
    if s == "" then 0 else if s[|s| - 1] == c then |s| else FindLast(s[..|s| - 1], c)
  }

  /** At most n pieces between separators; the last piece keeps the separators behind it. */
  function SplitN(s: string, c: char, n: nat): (parts: seq<string>)
    requires n > 0
    ensures 0 < |parts| <= n
    decreases n
  {
    var i := Find(s, c);
    if n == 1 || i == |s| then [s] else [s[..i]] + SplitN(s[i + 1..], c, n - 1)
  }

  lemma SplitHead(head: string, c: char, tail: string, n: nat)
    requires n > 1 && forall j :: 0 <= j < |head| ==> head[j] != c
    ensures SplitN(head + [c] + tail, c, n) == [head] + SplitN(tail, c, n - 1)
  {
    var s := head + [c] + tail;
    var i := Find(s, c);
    assert s[|head|] == c;
    assert i == |head|;
    assert s[..i] == head && s[i + 1..] == tail;
  }

  // ----- decimal numbers ---------------------------------------------------------------------

  const MIN_INT := -0x8000_0000_0000_0000
  const MAX_INT := 0x7FFF_FFFF_FFFF_FFFF

  predicate IsDigit(c: char)
  {
    '0' <= c <= '9'
  }

  predicate AllDigits(s: string)
  {
    forall i :: 0 <= i < |s| ==> IsDigit(s[i])
  }

  function DigitValue(c: char): (d: nat)
    requires IsDigit(c)
    ensures d < 10
  {
    c as int - 48
  }

  function Value(digits: string): nat
    requires AllDigits(digits)
    decreases |digits|
  {
    if digits == "" then 0 else Value(digits[..|digits| - 1]) * 10 + DigitValue(digits[|digits| - 1])
  }

  /** strconv.Atoi: an optional sign, at least one digit, within 64 bits. */
  function Atoi(s: string): Option<int>
  {
    if s == "" then None
    else
      var digits := if s[0] == '-' || s[0] == '+' then s[1..] else s;
      if digits == "" || !AllDigits(digits) then None
      else
        var v: int := Value(digits);
        var n := if s[0] == '-' then -v else v;
        if MIN_INT <= n <= MAX_INT then Some(n) else None
  }

  function Digits(n: nat): (s: string)
    ensures s != "" && AllDigits(s)
  {
    var last := [(48 + n % 10) as char];
    if n < 10 then last else Digits(n / 10) + last
  }

  /** Decimal printing, as %d does it. */
  function Itoa(n: int): string
  {
    if n < 0 then "-" + Digits(-n) else Digits(n)
  }

  lemma {:induction false} DigitsValue(n: nat)
    ensures Value(Digits(n)) == n
    decreases n
  {
    if n >= 10 {
      DigitsValue(n / 10);
      var s := Digits(n);
      assert s[..|s| - 1] == Digits(n / 10);
    }
  }

  /** Reading a numeral, with a sign or without. */
  lemma AtoiReads(sign: string, digits: string)
    requires sign in {"", "+", "-"} && digits != "" && AllDigits(digits)
    ensures var v: int := Value(digits); var n := if sign == "-" then -v else v;
      Atoi(sign + digits) == if MIN_INT <= n <= MAX_INT then Some(n) else None
  {
    if sign == "" {
      assert sign + digits == digits && IsDigit(digits[0]);
    } else {
      assert (sign + digits)[1..] == digits;
    }
  }

  /** And nothing but numerals is read. */
  lemma AtoiOnlyNumerals(s: string)
    requires Atoi(s).Some?
    ensures exists sign, digits :: sign in {"", "+", "-"} && digits != "" && AllDigits(digits) && s == sign + digits
  {
    if s[0] == '-' || s[0] == '+' {
      assert s == s[..1] + s[1..] && (s[..1] == "-" || s[..1] == "+");
    } else {
      assert s == "" + s;
    }
  }

  /** Reading undoes printing exactly for the numbers an int can hold. */
  lemma AtoiItoa(n: int)
    ensures Atoi(Itoa(n)) == Some(n) <==> MIN_INT <= n <= MAX_INT
    ensures forall i :: 0 <= i < |Itoa(n)| ==> Itoa(n)[i] != ':'
  {
    if n < 0 {
      DigitsValue(-n);
      assert Itoa(n)[1..] == Digits(-n);
    } else {
      DigitsValue(n);
      assert IsDigit(Itoa(n)[0]);
    }
  }
}
