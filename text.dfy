/** String helpers that the pages use through JavaScript's built-in string
    methods: `toLowerCase`/`toUpperCase` (on ASCII letters), `includes`,
    `split(' ')` and `join`, the avatar initials built from them, the
    decimal rendering of a whole number (`toString`) and `slice(0, k)`. */
module Text {

  // ---------------------------------------------------------------- case

  predicate IsUpperAscii(c: char) { 'A' <= c <= 'Z' }
  predicate IsLowerAscii(c: char) { 'a' <= c <= 'z' }

  function LowerChar(c: char): char {
    if IsUpperAscii(c) then (c as int + 32) as char else c
  }

  function UpperChar(c: char): char {
    if IsLowerAscii(c) then (c as int - 32) as char else c
  }

  /** `s.toLowerCase()` restricted to ASCII letters. */
  function ToLower(s: string): (r: string)
    ensures |r| == |s|
    ensures forall i :: 0 <= i < |r| ==> !IsUpperAscii(r[i])
    ensures forall i :: 0 <= i < |s| && !IsUpperAscii(s[i]) ==> r[i] == s[i]
    ensures forall i :: 0 <= i < |s| && IsUpperAscii(s[i]) ==> r[i] as int == s[i] as int + 32
  {
    seq(|s|, i requires 0 <= i < |s| => LowerChar(s[i]))
  }

  /** `s.toUpperCase()` restricted to ASCII letters. */
  function ToUpper(s: string): (r: string)
    ensures |r| == |s|
    ensures forall i :: 0 <= i < |r| ==> !IsLowerAscii(r[i])
    ensures forall i :: 0 <= i < |s| && !IsLowerAscii(s[i]) ==> r[i] == s[i]
    ensures forall i :: 0 <= i < |s| && IsLowerAscii(s[i]) ==> r[i] as int == s[i] as int - 32
  {
    seq(|s|, i requires 0 <= i < |s| => UpperChar(s[i]))
  }

  /** Lower-casing twice is lower-casing once. */
  lemma ToLowerIdempotent(s: string)
    ensures ToLower(ToLower(s)) == ToLower(s)
  {
    var once := ToLower(s);
    assert forall i :: 0 <= i < |once| ==> ToLower(once)[i] == once[i];
  }

  /** Lower-casing forgets the case a string was typed in: a string and its
      upper-cased copy lower-case to the same text. */
  lemma ToLowerForgetsCase(s: string)
    ensures ToLower(ToUpper(s)) == ToLower(s)
  {
    var u := ToUpper(s);
    forall i | 0 <= i < |s|
      ensures ToLower(u)[i] == ToLower(s)[i]
    {
      if IsLowerAscii(s[i]) {
        assert IsUpperAscii(u[i]);
      }
    }
  }

  // ---------------------------------------------------------- substrings

  /** `needle` occurs in `hay` starting at position `i`. */
  ghost predicate OccursAt(hay: string, needle: string, i: int) {
    0 <= i && i + |needle| <= |hay| && hay[i..i + |needle|] == needle
  }

  /** `hay.includes(needle)`: a scan of the starting positions. */
  predicate Includes(hay: string, needle: string)
    ensures Includes(hay, needle) ==> |needle| <= |hay|
    decreases |hay|
  {
    needle <= hay || (|hay| > 0 && Includes(hay[1..], needle))
  }

  /** An occurrence at some position makes `Includes` true. */
  lemma {:induction false} OccursImpliesIncludes(hay: string, needle: string, i: int)
    requires OccursAt(hay, needle, i)
    ensures Includes(hay, needle)
    decreases i
  {
    if i == 0 {
      assert needle == hay[..|needle|];
    } else {
      assert hay[1..][i - 1..i - 1 + |needle|] == hay[i..i + |needle|];
      OccursImpliesIncludes(hay[1..], needle, i - 1);
    }
  }

  /** `Includes` only holds when there is an occurrence. */
  lemma {:induction false} IncludesImpliesOccurs(hay: string, needle: string)
    requires Includes(hay, needle)
    ensures exists i :: OccursAt(hay, needle, i)
    decreases |hay|
  {
    if needle <= hay {
      assert OccursAt(hay, needle, 0);
    } else {
      IncludesImpliesOccurs(hay[1..], needle);
      var i :| OccursAt(hay[1..], needle, i);
      assert hay[1..][i..i + |needle|] == hay[i + 1..i + 1 + |needle|];
      assert OccursAt(hay, needle, i + 1);
    }
  }

  /** `Includes` holds exactly when the needle occurs somewhere in the hay. */
  lemma IncludesIffOccurs(hay: string, needle: string)
    ensures Includes(hay, needle) <==> exists i :: OccursAt(hay, needle, i)
  {
    if Includes(hay, needle) {
      IncludesImpliesOccurs(hay, needle);
    }
    if exists i :: OccursAt(hay, needle, i) {
      var i :| OccursAt(hay, needle, i);
      OccursImpliesIncludes(hay, needle, i);
    }
  }

  /** Every string includes the empty string, so an empty search term
      matches everything. */
  lemma IncludesEmpty(hay: string)
    ensures Includes(hay, "")
  {
  }

  /** The search test used by every page: `field.toLowerCase().includes(term.toLowerCase())`. */
  predicate MatchesTerm(field: string, term: string)
    ensures MatchesTerm(field, term) ==> |term| <= |field|
  {
    Includes(ToLower(field), ToLower(term))
  }

  /** The search is case-insensitive: typing the term in capitals finds the
      same fields. */
  lemma MatchesTermIgnoresCase(field: string, term: string)
    ensures MatchesTerm(field, ToUpper(term)) == MatchesTerm(field, term)
  {
    ToLowerForgetsCase(term);
  }

  /** An empty term matches every field. */
  lemma MatchesEmptyTerm(field: string)
    ensures MatchesTerm(field, "")
  {
    assert ToLower("") == "";
    IncludesEmpty(ToLower(field));
  }

  // ---------------------------------------------------------- split/join

  /** `s.split(sep)` for a one-character separator: empty pieces are kept,
      so the empty string splits into one empty piece. */
  function Split(s: string, sep: char): (r: seq<string>)
    ensures |r| >= 1
    decreases |s|
  {
    if |s| == 0 then [""]
    else if s[0] == sep then [""] + Split(s[1..], sep)
    else
      var rest := Split(s[1..], sep);
      [[s[0]] + rest[0]] + rest[1..]
  }

  /** `parts.join(sep)`. */
  function Join(parts: seq<string>, sep: char): (r: string)
    requires |parts| >= 1
    ensures parts[0] <= r
    ensures |r| >= |parts| - 1
    ensures |parts| > 1 ==> parts[0] + [sep] <= r
  {
    if |parts| == 1 then parts[0] else parts[0] + [sep] + Join(parts[1..], sep)
  }

  /** Number of occurrences of `c` in `s`. */
  function Occurrences(s: string, c: char): nat {
    if |s| == 0 then 0 else (if s[0] == c then 1 else 0) + Occurrences(s[1..], c)
  }

  /** Splitting then joining with the same separator gives the string back. */
  lemma {:induction false} SplitJoin(s: string, sep: char)
    ensures Join(Split(s, sep), sep) == s
    decreases |s|
  {
    if |s| > 0 {
      SplitJoin(s[1..], sep);
      var rest := Split(s[1..], sep);
      var r := Split(s, sep);
      if s[0] == sep {
        assert r == [""] + rest;
        assert Join(r, sep) == [sep] + Join(rest, sep);
      } else {
        assert r == [[s[0]] + rest[0]] + rest[1..];
        if |rest| == 1 {
          assert Join(r, sep) == [s[0]] + rest[0];
        } else {
          assert r[1..] == rest[1..];
          assert Join(r, sep) == [s[0]] + rest[0] + [sep] + Join(rest[1..], sep);
        }
      }
      assert s == [s[0]] + s[1..];
    }
  }

  /** No piece of a split contains the separator. */
  lemma {:induction false} SplitPiecesAvoidSeparator(s: string, sep: char)
    ensures forall k :: 0 <= k < |Split(s, sep)| ==> sep !in Split(s, sep)[k]
    decreases |s|
  {
    if |s| > 0 {
      SplitPiecesAvoidSeparator(s[1..], sep);
      var rest := Split(s[1..], sep);
      var r := Split(s, sep);
      forall k | 0 <= k < |r|
        ensures sep !in r[k]
      {
        if s[0] == sep {
          if k > 0 {
            assert r[k] == rest[k - 1];
          }
        } else if k > 0 {
          assert r[k] == rest[k];
        } else {
          assert r[0] == [s[0]] + rest[0];
        }
      }
    }
  }

  /** A split has one piece more than there are separators. */
  lemma {:induction false} SplitCount(s: string, sep: char)
    ensures |Split(s, sep)| == Occurrences(s, sep) + 1
    decreases |s|
  {
    if |s| > 0 {
      SplitCount(s[1..], sep);
    }
  }

  /** A string without the separator is one piece. */
  lemma {:induction false} SplitWithoutSeparator(w: string, sep: char)
    requires sep !in w
    ensures Split(w, sep) == [w]
    decreases |w|
  {
    if |w| > 0 {
      SplitWithoutSeparator(w[1..], sep);
      assert w == [w[0]] + w[1..];
    }
  }

  /** Splitting at the first separator: the piece before it, then the
      pieces of the rest. */
  lemma {:induction false} SplitAtFirstSeparator(a: string, b: string, sep: char)
    requires sep !in a
    ensures Split(a + [sep] + b, sep) == [a] + Split(b, sep)
    decreases |a|
  {
    var s := a + [sep] + b;
    if |a| == 0 {
      assert s == [sep] + b;
      assert s[1..] == b;
    } else {
      SplitAtFirstSeparator(a[1..], b, sep);
      assert s[1..] == a[1..] + [sep] + b;
      assert a == [a[0]] + a[1..];
    }
  }

  /** Joining pieces free of the separator and splitting again gives the
      pieces back: the converse of `SplitJoin`. */
  lemma {:induction false} JoinSplit(parts: seq<string>, sep: char)
    requires |parts| >= 1
    requires forall k :: 0 <= k < |parts| ==> sep !in parts[k]
    ensures Split(Join(parts, sep), sep) == parts
    decreases |parts|
  {
    if |parts| == 1 {
      SplitWithoutSeparator(parts[0], sep);
    } else {
      JoinSplit(parts[1..], sep);
      SplitAtFirstSeparator(parts[0], Join(parts[1..], sep), sep);
    }
  }

  // ------------------------------------------------------------- initials

  /** `words.map(n => n[0]).join('')`: an empty word has no first character,
      `n[0]` is `undefined` and `join` renders it as nothing. */
  function FirstChars(words: seq<string>): (r: string)
    ensures |r| <= |words|
  {
    if |words| == 0 then ""
    else (if |words[0]| == 0 then "" else [words[0][0]]) + FirstChars(words[1..])
  }

  /** Every character of `FirstChars(words)` opens one of the words. */
  lemma {:induction false} FirstCharsOpenWords(words: seq<string>, i: nat)
    requires i < |FirstChars(words)|
    ensures exists k :: 0 <= k < |words| && |words[k]| > 0 && FirstChars(words)[i] == words[k][0]
    decreases |words|
  {
    if |words[0]| == 0 {
      FirstCharsOpenWords(words[1..], i);
      var k :| 0 <= k < |words[1..]| && |words[1..][k]| > 0 && FirstChars(words[1..])[i] == words[1..][k][0];
      assert words[k + 1] == words[1..][k];
    } else if i > 0 {
      FirstCharsOpenWords(words[1..], i - 1);
      var k :| 0 <= k < |words[1..]| && |words[1..][k]| > 0 && FirstChars(words[1..])[i - 1] == words[1..][k][0];
      assert words[k + 1] == words[1..][k];
    } else {
      assert FirstChars(words)[0] == words[0][0];
    }
  }

  /** `name.split(' ').map(n => n[0]).join('').toUpperCase()`. */
  function Initials(name: string): (r: string)
    ensures |r| <= |Split(name, ' ')|
    ensures forall i :: 0 <= i < |r| ==> !IsLowerAscii(r[i])
  {
    ToUpper(FirstChars(Split(name, ' ')))
  }

  /** Initials never contain a space: each one is the upper-cased opening
      character of a word, and words contain no spaces. */
  lemma InitialsHaveNoSpace(name: string)
    ensures ' ' !in Initials(name)
  {
    var words := Split(name, ' ');
    SplitPiecesAvoidSeparator(name, ' ');
    var fc := FirstChars(words);
    forall i | 0 <= i < |fc|
      ensures fc[i] != ' '
    {
      FirstCharsOpenWords(words, i);
      var k :| 0 <= k < |words| && |words[k]| > 0 && fc[i] == words[k][0];
      assert words[k][0] in words[k];
    }
  }

  /** The initials of words written with single spaces between them are
      the upper-cased first characters of the non-empty words. */
  lemma InitialsOfWords(words: seq<string>)
    requires |words| >= 1
    requires forall k :: 0 <= k < |words| ==> ' ' !in words[k]
    ensures Initials(Join(words, ' ')) == ToUpper(FirstChars(words))
  {
    JoinSplit(words, ' ');
  }

  // ------------------------------------------------------- number to text

  function DigitChar(d: nat): char
    requires d < 10
  {
    ('0' as int + d) as char
  }

  predicate IsDigit(c: char) { '0' <= c <= '9' }

  /** Decimal rendering of a whole number, as JavaScript's `toString`. */
  function NatToString(n: nat): (r: string)
    ensures |r| >= 1
    ensures forall i :: 0 <= i < |r| ==> IsDigit(r[i])
    ensures r[0] == '0' ==> n == 0
    decreases n
  {
    if n < 10 then [DigitChar(n)] else NatToString(n / 10) + [DigitChar(n % 10)]
  }

  /** The value of a string of decimal digits. */
  function DigitsValue(s: string): nat
    requires forall i :: 0 <= i < |s| ==> IsDigit(s[i])
  {
    if |s| == 0 then 0
    else
      assert IsDigit(s[|s| - 1]);
      DigitsValue(s[..|s| - 1]) * 10 + (s[|s| - 1] as int - '0' as int)
  }

  /** Reading the rendered digits back gives the number. */
  lemma {:induction false} NatToStringRoundTrip(n: nat)
    ensures DigitsValue(NatToString(n)) == n
    decreases n
  {
    if n >= 10 {
      NatToStringRoundTrip(n / 10);
      var s := NatToString(n);
      assert s[..|s| - 1] == NatToString(n / 10);
    }
  }

  /** The run of decimal digits a string starts with. */
  function LeadingDigits(s: string): (r: string)
    ensures r <= s
    ensures forall i :: 0 <= i < |r| ==> IsDigit(r[i])
    ensures |r| < |s| ==> !IsDigit(s[|r|])
  {
    if |s| == 0 || !IsDigit(s[0]) then "" else [s[0]] + LeadingDigits(s[1..])
  }

  /** A number written in front of text that does not start with a digit is
      read back from the front of the whole. */
  lemma {:induction false} LeadingNumber(n: nat, rest: string)
    requires |rest| > 0 ==> !IsDigit(rest[0])
    ensures DigitsValue(LeadingDigits(NatToString(n) + rest)) == n
  {
    DigitsPrefix(NatToString(n), rest);
    NatToStringRoundTrip(n);
  }

  lemma {:induction false} DigitsPrefix(digits: string, rest: string)
    requires forall i :: 0 <= i < |digits| ==> IsDigit(digits[i])
    requires |rest| > 0 ==> !IsDigit(rest[0])
    ensures LeadingDigits(digits + rest) == digits
    decreases |digits|
  {
    if |digits| == 0 {
      assert digits + rest == rest;
    } else {
      DigitsPrefix(digits[1..], rest);
      assert (digits + rest)[1..] == digits[1..] + rest;
      assert digits == [digits[0]] + digits[1..];
    }
  }

  // ---------------------------------------------------------------- slice

  /** `s.slice(0, k)` for k >= 0: the slice stops at the end of the string. */
  function Take(s: string, k: nat): (r: string)
    ensures |r| == if k <= |s| then k else |s|
    ensures r <= s
  {
    if k <= |s| then s[..k] else s
  }
}
