/** String helpers shared by the Kotlin and TypeScript rules: ASCII case
    mapping, prefixes and substrings, joining, and Kotlin's split on the
    regular expression `\s+`. */
module Text {

  function LowerChar(c: char): (r: char)
    ensures 'A' <= c <= 'Z' ==> r as int == c as int + 32
    ensures !('A' <= c <= 'Z') ==> r == c
  {
    if 'A' <= c <= 'Z' then (c as int + 32) as char else c
  }

  /** Lower-casing of the ASCII letters; every other character is kept. */
  function Lower(s: string): (r: string)
    ensures |r| == |s|
    ensures forall i :: 0 <= i < |s| ==> r[i] == LowerChar(s[i])
  {
    seq(|s|, i requires 0 <= i < |s| => LowerChar(s[i]))
  }

  lemma LowerIdempotent(s: string)
    ensures Lower(Lower(s)) == Lower(s)
  {
  }

  /** Case-insensitive equality, as Kotlin's `equals(other, ignoreCase = true)`
      on ASCII text. */
  predicate EqualsIgnoreCase(a: string, b: string)
  {
    Lower(a) == Lower(b)
  }

  predicate StartsWith(s: string, prefix: string)
  {
    |prefix| <= |s| && s[..|prefix|] == prefix
  }

  predicate ContainsAt(s: string, t: string, i: int)
  {
    0 <= i && i + |t| <= |s| && s[i..i + |t|] == t
  }

  predicate Contains(s: string, t: string)
  {
    exists i :: 0 <= i <= |s| - |t| && ContainsAt(s, t, i)
  }

  /** The pieces separated by `sep`. */
  function Join(pieces: seq<string>, sep: string): string
  {
    if |pieces| == 0 then ""
    else if |pieces| == 1 then pieces[0]
    else pieces[0] + sep + Join(pieces[1..], sep)
  }

  /** The characters matched by `\s` in a Java regular expression. */
  predicate IsSpace(c: char)
  {
    c == ' ' || c == '\t' || c == '\n' || c == '\U{000B}' || c == '\U{000C}' || c == '\r'
  }

  predicate NoSpace(s: string)
  {
    forall i :: 0 <= i < |s| ==> !IsSpace(s[i])
  }

  /** `s` without its leading run of whitespace. */
  function DropSpaces(s: string): (r: string)
    ensures |r| <= |s|
    ensures |r| > 0 ==> !IsSpace(r[0])
    ensures NoSpace(s) ==> r == s
  {
    if |s| > 0 && IsSpace(s[0]) then DropSpaces(s[1..]) else s
  }

  /** Kotlin's `split("\\s+".toRegex())`: the pieces between maximal runs of
      whitespace. Leading and trailing empty pieces are kept, so the result
      is never empty and `""` gives `[""]`. */
  function SplitSpaces(s: string): (r: seq<string>)
    ensures |r| >= 1
    decreases |s|
  {
    if |s| == 0 then [""]
    else if IsSpace(s[0]) then [""] + SplitSpaces(DropSpaces(s))
    else
      var rest := SplitSpaces(s[1..]);
      [[s[0]] + rest[0]] + rest[1..]
  }

  /** No piece contains whitespace. */
  lemma {:induction false} SplitSpacesPieces(s: string)
    ensures forall k :: 0 <= k < |SplitSpaces(s)| ==> NoSpace(SplitSpaces(s)[k])
    decreases |s|
  {
    if |s| == 0 {
    } else if IsSpace(s[0]) {
      SplitSpacesPieces(DropSpaces(s));
    } else {
      SplitSpacesPieces(s[1..]);
      var rest := SplitSpaces(s[1..]);
      assert NoSpace([s[0]] + rest[0]) by {
        assert NoSpace(rest[0]);
      }
    }
  }

  /** A word without whitespace is a single piece. */
  lemma {:induction false} SplitSpacesWord(w: string)
    requires NoSpace(w)
    ensures SplitSpaces(w) == [w]
    decreases |w|
  {
    if |w| > 0 {
      SplitSpacesWord(w[1..]);
      assert [w[0]] + w[1..] == w;
    }
  }

  /** A word, one space and more text: the word is the first piece. */
  lemma {:induction false} SplitSpacesCons(w: string, t: string)
    requires NoSpace(w) && |w| > 0
    requires |t| > 0 && !IsSpace(t[0])
    ensures SplitSpaces(w + " " + t) == [w] + SplitSpaces(t)
    decreases |w|
  {
    var s := w + " " + t;
    assert s[0] == w[0] && !IsSpace(s[0]);
    var rest := SplitSpaces(s[1..]);
    assert SplitSpaces(s) == [[w[0]] + rest[0]] + rest[1..];
    if |w| == 1 {
      assert s[1..] == " " + t;
      assert DropSpaces(s[1..]) == DropSpaces(t) == t;
      assert rest == [""] + SplitSpaces(t);
      assert [w[0]] + "" == w;
    } else {
      SplitSpacesCons(w[1..], t);
      assert s[1..] == w[1..] + " " + t;
      assert rest == [w[1..]] + SplitSpaces(t);
      assert [w[0]] + w[1..] == w;
    }
  }

  /** Splitting undoes joining with single spaces, for non-empty words
      without whitespace. */
  lemma {:induction false} SplitJoin(words: seq<string>)
    requires |words| >= 1
    requires forall k :: 0 <= k < |words| ==> |words[k]| > 0 && NoSpace(words[k])
    ensures SplitSpaces(Join(words, " ")) == words
  {
    if |words| == 1 {
      SplitSpacesWord(words[0]);
    } else {
      SplitJoin(words[1..]);
      var t := Join(words[1..], " ");
      JoinStart(words[1..]);
      SplitSpacesCons(words[0], t);
      assert [words[0]] + words[1..] == words;
    }
  }

  lemma {:induction false} JoinStart(words: seq<string>)
    requires |words| >= 1 && |words[0]| > 0
    ensures |Join(words, " ")| > 0 && Join(words, " ")[0] == words[0][0]
  {
  }

  lemma {:induction false} DropSpacesAppend(s: string, c: char)
    requires IsSpace(c)
    ensures DropSpaces(s + [c]) == if DropSpaces(s) == "" then "" else DropSpaces(s) + [c]
    decreases |s|
  {
    if |s| == 0 {
      assert s + [c] == [c];
      assert DropSpaces([c]) == DropSpaces([c][1..]);
      assert [c][1..] == "";
    } else if IsSpace(s[0]) {
      assert (s + [c])[1..] == s[1..] + [c];
      DropSpacesAppend(s[1..], c);
    }
  }

  /** Trailing whitespace leaves an empty last piece. */
  lemma {:induction false} SplitSpacesTrailing(s: string, c: char)
    requires IsSpace(c)
    ensures |SplitSpaces(s + [c])| >= 2
    ensures SplitSpaces(s + [c])[|SplitSpaces(s + [c])| - 1] == ""
    decreases |s|
  {
    var t := s + [c];
    if |s| == 0 {
      assert t == [c];
      assert DropSpaces(t) == "" by {
        DropSpacesAppend(s, c);
      }
    } else if IsSpace(s[0]) {
      DropSpacesAppend(s, c);
      if DropSpaces(s) != "" {
        SplitSpacesTrailing(DropSpaces(s), c);
      }
    } else {
      assert t[1..] == s[1..] + [c];
      SplitSpacesTrailing(s[1..], c);
    }
  }

  lemma LowerAppend(a: string, b: string)
    ensures Lower(a + b) == Lower(a) + Lower(b)
  {
  }

  predicate IsLower(s: string)
  {
    forall i :: 0 <= i < |s| ==> !('A' <= s[i] <= 'Z')
  }

  /** Joining lower-case words with spaces gives lower-case text. */
  lemma {:induction false} LowerJoin(words: seq<string>)
    requires forall k :: 0 <= k < |words| ==> IsLower(words[k])
    ensures Lower(Join(words, " ")) == Join(words, " ")
  {
    if |words| == 1 {
      assert Lower(words[0]) == words[0];
    } else if |words| > 1 {
      LowerJoin(words[1..]);
      LowerAppend(words[0] + " ", Join(words[1..], " "));
      LowerAppend(words[0], " ");
      assert Lower(words[0]) == words[0];
    }
  }

  // ------------------------------------------------------ decimal digits

  predicate IsDigit(c: char)
  {
    '0' <= c <= '9'
  }

  predicate AllDigits(s: string)
  {
    forall i :: 0 <= i < |s| ==> IsDigit(s[i])
  }

  /** The value of a run of decimal digits, most significant first. */
  function DigitsValue(s: string): nat
    requires AllDigits(s)
  {
    if |s| == 0 then 0
    else DigitsValue(s[..|s| - 1]) * 10 + ((s[|s| - 1] as int) - ('0' as int))
  }

  /** The decimal text of a natural number, the inverse of `DigitsValue`. */
  function Decimal(n: nat): (r: string)
    ensures |r| > 0 && AllDigits(r)
    decreases n
  {
    var d := [(('0' as int) + n % 10) as char];
    if n < 10 then d else Decimal(n / 10) + d
  }

  lemma {:induction false} DigitsValueOfDecimal(n: nat)
    ensures DigitsValue(Decimal(n)) == n
    decreases n
  {
    var s := Decimal(n);
    if n >= 10 {
      DigitsValueOfDecimal(n / 10);
      assert s[..|s| - 1] == Decimal(n / 10);
    }
  }
}
