/** The parts of Go's `strings`, `unicode` and `strconv` packages the program's parsers use. */
module Text {
  import opened Wrappers

  const MAX_INT64: int := 0x7FFF_FFFF_FFFF_FFFF

  /** Two's-complement wrap-around of a 64-bit signed result. */
  function Wrap64(n: int): int {
    (n + 0x8000_0000_0000_0000) % 0x1_0000_0000_0000_0000 - 0x8000_0000_0000_0000
  }

  /** `unicode.IsSpace`. */
  predicate IsSpace(c: char) {
    || '\t' <= c <= '\r' || c == ' ' || c == '\U{85}' || c == '\U{A0}' || c == '\U{1680}'
    || '\U{2000}' <= c <= '\U{200A}' || c == '\U{2028}' || c == '\U{2029}' || c == '\U{202F}'
    || c == '\U{205F}' || c == '\U{3000}'
  }

  /** By code point: the white space of Latin-1, and the separators of the Unicode standard. */
  lemma SpacesExactly(c: char)
    ensures IsSpace(c) <==>
      || c as int in {0x9, 0xA, 0xB, 0xC, 0xD, 0x20, 0x85, 0xA0, 0x1680, 0x2028, 0x2029, 0x202F, 0x205F, 0x3000}
      || 0x2000 <= c as int <= 0x200A
  {
  }

  predicate IsDigit(c: char) {
    '0' <= c <= '9'
  }

  predicate Alphanumeric(c: char) {
    'a' <= c <= 'z' || 'A' <= c <= 'Z' || '0' <= c <= '9'
  }

  function TrimLeft(s: string, cut: char -> bool): string {
    if s != [] && cut(s[0]) then TrimLeft(s[1..], cut) else s
  }

  function TrimRight(s: string, cut: char -> bool): string {
    if s != [] && cut(s[|s| - 1]) then TrimRight(s[..|s| - 1], cut) else s
  }

  function TrimSpace(s: string): string {
    TrimRight(TrimLeft(s, IsSpace), IsSpace)
  }

  predicate Blank(s: string) {
    TrimSpace(s) == ""
  }

  /** Length of the longest prefix without a separator. */
  function Span(s: string, separator: char -> bool): (n: nat)
    ensures n <= |s|
    ensures forall i :: 0 <= i < n ==> !separator(s[i])
    ensures n < |s| ==> separator(s[n])
  {
    if s == [] || separator(s[0]) then 0 else 1 + Span(s[1..], separator)
  }

  function Exactly(separator: char): char -> bool {
    c => c == separator
  }

  /** `strings.Split` on a one-character separator. */
  function Split(s: string, separator: char): (parts: seq<string>)
    ensures |parts| >= 1
    decreases |s|
  {
    var n := Span(s, Exactly(separator));
    if n == |s| then [s] else [s[..n]] + Split(s[n + 1..], separator)
  }

  /** `strings.Fields`: the maximal runs of non-space characters. */
  function Fields(s: string): seq<string>
    decreases |s|
  {
    var t := TrimLeft(s, IsSpace);
    TrimLeftShrinks(s, IsSpace);
    if t == [] then []
    else
      var n := Span(t, IsSpace);
      [t[..n]] + Fields(t[n..])
  }

  lemma {:induction false} TrimLeftShrinks(s: string, cut: char -> bool)
    ensures |TrimLeft(s, cut)| <= |s|
    ensures TrimLeft(s, cut) != [] ==> !cut(TrimLeft(s, cut)[0])
  {
    if s == [] || !cut(s[0]) {
    } else {
      TrimLeftShrinks(s[1..], cut);
    }
  }

  lemma {:induction false} TrimLeftIsSuffix(s: string, cut: char -> bool)
    ensures forall c :: c in TrimLeft(s, cut) ==> c in s
    ensures TrimLeft(s, cut) != "" ==> !cut(TrimLeft(s, cut)[0])
  {
    if s == "" || !cut(s[0]) {
    } else {
      TrimLeftIsSuffix(s[1..], cut);
    }
  }

  lemma {:induction false} TrimRightIsPrefix(s: string, cut: char -> bool)
    ensures forall c :: c in TrimRight(s, cut) ==> c in s
    ensures TrimRight(s, cut) != "" ==> s != "" && TrimRight(s, cut)[0] == s[0]
    ensures TrimRight(s, cut) != "" ==> !cut(TrimRight(s, cut)[|TrimRight(s, cut)| - 1])
  {
    if s == "" || !cut(s[|s| - 1]) {
    } else {
      TrimRightIsPrefix(s[..|s| - 1], cut);
    }
  }

  lemma TrimTwice(s: string)
    ensures TrimSpace(TrimSpace(s)) == TrimSpace(s)
  {
    TrimLeftIsSuffix(s, IsSpace);
    TrimRightIsPrefix(TrimLeft(s, IsSpace), IsSpace);
  }

  /** Value of a digit string, most significant digit first. */
  function Digits(s: string): nat
    requires forall c :: c in s ==> IsDigit(c)
  {
    if s == [] then 0
    else
      var last := s[|s| - 1];
      assert IsDigit(last);
      10 * Digits(s[..|s| - 1]) + (last as int - '0' as int)
  }

  /** `strconv.Atoi`: an optional sign and decimal digits, within a 64-bit integer. */
  function Atoi(s: string): Option<int> {
    var signed := s != [] && (s[0] == '+' || s[0] == '-');
    var body := if signed then s[1..] else s;
    if body == [] || exists c :: c in body && !IsDigit(c) then None
    else
      var magnitude: int := Digits(body);
      var n := if signed && s[0] == '-' then -magnitude else magnitude;
      if -MAX_INT64 - 1 <= n <= MAX_INT64 then Some(n) else None
  }

  /** Decimal rendering of a natural number. */
  function Itoa(n: nat): (s: string)
    ensures s != [] && forall c :: c in s ==> IsDigit(c)
  {
    if n < 10 then [('0' as int + n) as char] else Itoa(n / 10) + [('0' as int + n % 10) as char]
  }

  lemma {:induction false} DigitsOfItoa(n: nat)
    ensures Digits(Itoa(n)) == n
  {
    if n < 10 {
    } else {
      DigitsOfItoa(n / 10);
      assert Itoa(n)[..|Itoa(n)| - 1] == Itoa(n / 10);
    }
  }

  /** How a number without a minus sign is written: an optional plus, then decimal digits. */
  ghost predicate Written(text: string, n: int) {
    0 <= n <= MAX_INT64 && (DigitString(text, n) || ("+" <= text && DigitString(text[1..], n)))
  }

  ghost predicate DigitString(s: string, n: int) {
    s != "" && (forall c :: c in s ==> IsDigit(c)) && Digits(s) == n
  }

  /** The texts `Atoi` reads as a number, minus signs aside, are exactly the written ones. */
  lemma AtoiReadsWritten(text: string, n: int)
    ensures Written(text, n) <==> Atoi(text) == Some(n) && '-' !in text
  {
    if text != "" {
      assert text == [text[0]] + text[1..];
      assert text[0] in text;
    }
    if Written(text, n) && !DigitString(text, n) {
      assert text[0] == '+';
    }
  }

  /** A number above zero has no minus sign. */
  lemma PositiveHasNoMinus(text: string)
    requires Atoi(text).Some? && Atoi(text).value > 0
    ensures '-' !in text
  {
    var body := if text[0] == '+' || text[0] == '-' then text[1..] else text;
    assert forall c :: c in body ==> IsDigit(c);
    assert text == [text[0]] + text[1..];
    assert text[0] != '-';
  }

  lemma ItoaIsWritten(n: nat)
    requires n <= MAX_INT64
    ensures Written(Itoa(n), n)
  {
    DigitsOfItoa(n);
  }

  function Join(parts: seq<string>, separator: char): string
    requires parts != []
  {
    if |parts| == 1 then parts[0] else parts[0] + [separator] + Join(parts[1..], separator)
  }

  lemma {:induction false} SpanStops(s: string, rest: string, separator: char -> bool)
    requires forall c :: c in s ==> !separator(c)
    requires rest == [] || separator(rest[0])
    ensures Span(s + rest, separator) == |s|
  {
    if s != [] {
      assert (s + rest)[1..] == s[1..] + rest;
      SpanStops(s[1..], rest, separator);
    } else {
      assert s + rest == rest;
    }
  }

  /** Splitting undoes joining when no part contains the separator. */
  lemma {:induction false} SplitOfJoin(parts: seq<string>, separator: char)
    requires parts != []
    requires forall p :: p in parts ==> separator !in p
    ensures Split(Join(parts, separator), separator) == parts
  {
    assert parts[0] in parts;
    if |parts| == 1 {
      assert parts[0] + [] == parts[0];
      SpanStops(parts[0], [], Exactly(separator));
    } else {
      var rest := Join(parts[1..], separator);
      SplitOfJoin(parts[1..], separator);
      SpanStops(parts[0], [separator] + rest, Exactly(separator));
      var s := Join(parts, separator);
      assert s == parts[0] + ([separator] + rest);
      assert s[..|parts[0]|] == parts[0] && s[|parts[0]| + 1..] == rest;
    }
  }

  /** Joining undoes splitting, and no part contains the separator. */
  lemma {:induction false} JoinOfSplit(s: string, separator: char)
    ensures Join(Split(s, separator), separator) == s
    ensures forall p :: p in Split(s, separator) ==> separator !in p
    decreases |s|
  {
    var n := Span(s, Exactly(separator));
    if n == |s| {
    } else {
      var rest := Split(s[n + 1..], separator);
      JoinOfSplit(s[n + 1..], separator);
      assert Split(s, separator)[1..] == rest;
      assert s == s[..n] + [separator] + s[n + 1..];
    }
  }

  /** What splits in two at a separator. */
  lemma SplitInTwo(s: string, separator: char, a: string, b: string)
    ensures Split(s, separator) == [a, b] <==> s == a + [separator] + b && separator !in a && separator !in b
  {
    hide Split;
    assert Join([a, b], separator) == a + [separator] + Join([b], separator) == a + [separator] + b;
    if Split(s, separator) == [a, b] {
      JoinOfSplit(s, separator);
      assert a in [a, b] && b in [a, b];
    } else if separator !in a && separator !in b {
      SplitOfJoin([a, b], separator);
    }
  }

  lemma {:induction false} TrimLeftCuts(pre: string, rest: string, cut: char -> bool)
    requires (forall c :: c in pre ==> cut(c)) && (rest == "" || !cut(rest[0]))
    ensures TrimLeft(pre + rest, cut) == rest
  {
    if pre == "" {
      assert pre + rest == rest;
    } else {
      assert (pre + rest)[1..] == pre[1..] + rest && pre[0] in pre;
      TrimLeftCuts(pre[1..], rest, cut);
    }
  }

  lemma {:induction false} TrimRightCuts(rest: string, post: string, cut: char -> bool)
    requires (forall c :: c in post ==> cut(c)) && (rest == "" || !cut(rest[|rest| - 1]))
    ensures TrimRight(rest + post, cut) == rest
  {
    if post == "" {
      assert rest + post == rest;
    } else {
      var n := |post| - 1;
      assert (rest + post)[..|rest + post| - 1] == rest + post[..n] && post[n] in post;
      TrimRightCuts(rest, post[..n], cut);
    }
  }

  /** Trimming takes the white space off both ends and nothing else. */
  lemma TrimSpaceExactly(pre: string, core: string, post: string)
    requires (forall c :: c in pre ==> IsSpace(c)) && (forall c :: c in post ==> IsSpace(c))
    requires core != "" && !IsSpace(core[0]) && !IsSpace(core[|core| - 1])
    ensures TrimSpace(pre + core + post) == core
  {
    assert pre + core + post == pre + (core + post);
    TrimLeftCuts(pre, core + post, IsSpace);
    TrimRightCuts(core, post, IsSpace);
  }

  lemma {:induction false} NotBlank(s: string)
    requires s != "" && !IsSpace(s[0])
    ensures !Blank(s)
  {
    if |s| <= 1 || !IsSpace(s[|s| - 1]) {
    } else {
      NotBlank(s[..|s| - 1]);
      assert TrimLeft(s[..|s| - 1], IsSpace) == s[..|s| - 1];
    }
  }

  /** A text is blank iff it holds white space alone. */
  lemma {:induction false} BlankExactly(s: string)
    ensures Blank(s) <==> forall c :: c in s ==> IsSpace(c)
  {
    if s == "" {
    } else if IsSpace(s[0]) {
      BlankExactly(s[1..]);
      assert s == [s[0]] + s[1..];
    } else {
      NotBlank(s);
      assert s[0] in s;
    }
  }

  // ---- Fields ----

  lemma {:induction false} SpanBeforeSpace(s: string, c: char)
    requires IsSpace(c)
    ensures Span(s + [c], IsSpace) == Span(s, IsSpace)
  {
    if s == [] || IsSpace(s[0]) {
    } else {
      assert (s + [c])[1..] == s[1..] + [c];
      SpanBeforeSpace(s[1..], c);
    }
  }

  lemma {:induction false} TrimLeftBeforeSpace(s: string, c: char)
    requires IsSpace(c)
    ensures TrimLeft(s + [c], IsSpace)
      == if TrimLeft(s, IsSpace) == [] then [] else TrimLeft(s, IsSpace) + [c]
  {
    if s == [] {
      assert TrimLeft([c], IsSpace) == TrimLeft([c][1..], IsSpace);
    } else {
      assert (s + [c])[1..] == s[1..] + [c];
      if IsSpace(s[0]) {
        TrimLeftBeforeSpace(s[1..], c);
      }
    }
  }

  /** A trailing space adds no field. */
  lemma {:induction false} FieldsBeforeSpace(s: string, c: char)
    requires IsSpace(c)
    ensures Fields(s + [c]) == Fields(s)
    decreases |s|
  {
    var t := TrimLeft(s, IsSpace);
    TrimLeftBeforeSpace(s, c);
    TrimLeftShrinks(s, IsSpace);
    if t == [] {
    } else {
      var n := Span(t, IsSpace);
      SpanBeforeSpace(t, c);
      assert (t + [c])[..n] == t[..n] && (t + [c])[n..] == t[n..] + [c];
      assert n > 0;
      FieldsBeforeSpace(t[n..], c);
    }
  }

  lemma {:induction false} FieldsOfTrimRight(s: string)
    ensures Fields(TrimRight(s, IsSpace)) == Fields(s)
  {
    hide Fields;
    if s == [] || !IsSpace(s[|s| - 1]) {
    } else {
      var front, last := s[..|s| - 1], s[|s| - 1];
      assert s == front + [last];
      FieldsBeforeSpace(front, last);
      FieldsOfTrimRight(front);
    }
  }

  lemma {:induction false} TrimLeftAgain(s: string)
    ensures TrimLeft(TrimLeft(s, IsSpace), IsSpace) == TrimLeft(s, IsSpace)
  {
    TrimLeftShrinks(s, IsSpace);
  }

  /** Trimming changes no field. */
  lemma FieldsOfTrim(s: string)
    ensures Fields(TrimSpace(s)) == Fields(s)
  {
    TrimLeftAgain(s);
    FieldsOfTrimRight(TrimLeft(s, IsSpace));
    assert Fields(TrimLeft(s, IsSpace)) == Fields(s);
  }

  /** A field as written: not empty and without spaces. */
  predicate Word(s: string) {
    s != "" && forall c :: c in s ==> !IsSpace(c)
  }

  lemma {:induction false} FieldsOfJoin(words: seq<string>)
    requires words != [] && forall w :: w in words ==> Word(w)
    ensures Fields(Join(words, ' ')) == words
    ensures Join(words, ' ') != "" && !IsSpace(Join(words, ' ')[0])
  {
    var first := words[0];
    assert Word(first) && first[0] in first;
    if |words| == 1 {
      assert first + [] == first;
      SpanStops(first, [], IsSpace);
      assert Fields([]) == [];
      assert words == [first];
    } else {
      var rest := Join(words[1..], ' ');
      FieldsOfJoin(words[1..]);
      var s := Join(words, ' ');
      assert s == first + ([' '] + rest);
      SpanStops(first, [' '] + rest, IsSpace);
      assert s[..|first|] == first && s[|first|..] == [' '] + rest;
      assert TrimLeft([' '] + rest, IsSpace) == rest by {
        assert ([' '] + rest)[1..] == rest;
      }
      assert Fields([' '] + rest) == Fields(rest);
      assert words == [first] + words[1..];
    }
  }

  lemma StartsBlankless(s: string)
    requires s != "" && !IsSpace(s[0])
    ensures !Blank(s)
  {
    KeepsFirst(s);
  }

  lemma {:induction false} KeepsFirst(s: string)
    requires s != "" && !IsSpace(s[0])
    ensures TrimRight(s, IsSpace) != ""
  {
    if !IsSpace(s[|s| - 1]) {
    } else {
      KeepsFirst(s[..|s| - 1]);
    }
  }

  lemma {:induction false} TrimRightKeeps(s: string, cut: char -> bool)
    requires s != "" && !cut(s[|s| - 1])
    ensures TrimRight(s, cut) == s
  {
  }

  lemma {:induction false} JoinEndsInWord(words: seq<string>)
    requires words != [] && forall w :: w in words ==> Word(w)
    ensures Join(words, ' ') != "" && !IsSpace(Join(words, ' ')[|Join(words, ' ')| - 1])
  {
    assert Word(words[0]) && words[0][|words[0]| - 1] in words[0];
    if |words| == 1 {
    } else {
      JoinEndsInWord(words[1..]);
    }
  }

  /** Joined words need no trimming. */
  lemma JoinOfWordsTrims(words: seq<string>)
    requires words != [] && forall w :: w in words ==> Word(w)
    ensures TrimSpace(Join(words, ' ')) == Join(words, ' ')
  {
    FieldsOfJoin(words);
    JoinEndsInWord(words);
    TrimRightKeeps(Join(words, ' '), IsSpace);
  }

  // ---- Letter case ----

  /** ASCII lower-casing. */
  function Lower(s: string): (r: string)
    ensures |r| == |s|
  {
    seq(|s|, i requires 0 <= i < |s| => if 'A' <= s[i] <= 'Z' then (s[i] as int + 32) as char else s[i])
  }

  lemma LowerAppends(a: string, b: string)
    ensures Lower(a + b) == Lower(a) + Lower(b)
  {
  }

  lemma LowerLetters()
    ensures Lower("ABCDEFGHIJKLMNOPQRSTUVWXYZ") == "abcdefghijklmnopqrstuvwxyz"
  {
  }

  lemma UpperLetters()
    ensures Upper("abcdefghijklmnopqrstuvwxyz") == "ABCDEFGHIJKLMNOPQRSTUVWXYZ"
  {
  }

  lemma CaseKeepsOthers(s: string)
    ensures (forall c :: c in s ==> !('A' <= c <= 'Z')) ==> Lower(s) == s
    ensures (forall c :: c in s ==> !('a' <= c <= 'z')) ==> Upper(s) == s
  {
    assert forall i :: 0 <= i < |s| ==> s[i] in s;
  }

  /** ASCII upper-casing. */
  function Upper(s: string): string {
    seq(|s|, i requires 0 <= i < |s| => if 'a' <= s[i] <= 'z' then (s[i] as int - 32) as char else s[i])
  }
}
