/** The handful of Python `str` operations the fetchers rely on, on `seq<char>`. */
module Strs {
  import opened Wrappers

  /** `ch.isspace()`, the characters `str.strip()` removes: tab, line feed,
      vertical tab, form feed and carriage return, the four separators
      U+001C-U+001F, space, next line (U+0085), no-break space (U+00A0),
      the Ogham space mark (U+1680), the spaces U+2000-U+200A, the line and
      paragraph separators (U+2028, U+2029), the narrow no-break space
      (U+202F), the medium mathematical space (U+205F) and the ideographic
      space (U+3000). */
  predicate IsSpace(ch: char) {
    || ('\t' <= ch <= '\r') || ('\U{1C}' <= ch <= '\U{1F}') || ch == ' '
    || ch == '\U{85}' || ch == '\U{A0}' || ch == '\U{1680}'
    || ('\U{2000}' <= ch <= '\U{200A}') || ch == '\U{2028}' || ch == '\U{2029}'
    || ch == '\U{202F}' || ch == '\U{205F}' || ch == '\U{3000}'
  }

  predicate IsBlank(s: string) {
    forall i :: 0 <= i < |s| ==> IsSpace(s[i])
  }

  predicate IsDigit(ch: char) {
    '0' <= ch <= '9'
  }

  predicate AllDigits(s: string) {
    forall i :: 0 <= i < |s| ==> IsDigit(s[i])
  }

  /** `s.lstrip()`: drops the leading whitespace and nothing else. */
  function TrimLeft(s: string): (r: string)
    ensures |r| <= |s| && r == s[|s| - |r|..]
    ensures r == [] || !IsSpace(r[0])
    ensures forall i :: 0 <= i < |s| - |r| ==> IsSpace(s[i])
  {
    if s != [] && IsSpace(s[0]) then TrimLeft(s[1..]) else s
  }

  /** `s.rstrip()`: drops the trailing whitespace and nothing else. */
  function TrimRight(s: string): (r: string)
    ensures |r| <= |s| && r == s[..|r|]
    ensures r == [] || !IsSpace(r[|r| - 1])
    ensures forall i :: |r| <= i < |s| ==> IsSpace(s[i])
  {
    if s != [] && IsSpace(s[|s| - 1]) then TrimRight(s[..|s| - 1]) else s
  }

  /** `s.strip()`. */
  function Strip(s: string): string {
    TrimRight(TrimLeft(s))
  }

  /** `s.strip()` is falsy exactly when `s` is empty or all whitespace. */
  lemma StripEmptyIffBlank(s: string)
    ensures Strip(s) == [] <==> IsBlank(s)
  {
    var l := TrimLeft(s);
    if Strip(s) == [] {
      assert l == [];
    } else {
      var r := Strip(s);
      assert !IsSpace(r[0]) && r[0] == s[|s| - |l|];
    }
  }

  /** A stripped string has no whitespace at either end. */
  lemma StripTrimmed(s: string)
    ensures var r := Strip(s); r == [] || (!IsSpace(r[0]) && !IsSpace(r[|r| - 1]))
  {
    var l := TrimLeft(s);
    var r := Strip(s);
    if r != [] {
      assert r[0] == l[0];
    }
  }

  /** `sep.join(xs)`. */
  function Join(xs: seq<string>, sep: string): string
    decreases |xs|
  {
    if |xs| == 0 then ""
    else if |xs| == 1 then xs[0]
    else xs[0] + sep + Join(xs[1..], sep)
  }

  /** `s.split(c)` for a one-character separator: the pieces between the
      occurrences of `c`; there is always at least one piece, none of them
      contains `c`, and joining them with `c` gives back `s`. */
  function Split(s: string, c: char): (r: seq<string>)
    ensures |r| >= 1
    ensures forall i :: 0 <= i < |r| ==> c !in r[i]
    ensures Join(r, [c]) == s
    decreases |s|
  {
    if s == [] then [""]
    else
      var t := Split(s[1..], c);
      if s[0] == c then
        assert Join([""] + t, [c]) == [c] + Join(t, [c]) by {
          assert ([""] + t)[1..] == t;
        }
        [""] + t
      else
        var h := [s[0]] + t[0];
        assert Join([h] + t[1..], [c]) == [s[0]] + Join(t, [c]) by {
          if |t| > 1 {
            assert ([h] + t[1..])[1..] == t[1..];
          }
        }
        [h] + t[1..]
  }

  lemma {:induction false} SplitNoSeparator(s: string, c: char)
    requires c !in s
    ensures Split(s, c) == [s]
    decreases |s|
  {
    if s != [] {
      assert c !in s[1..];
      SplitNoSeparator(s[1..], c);
    }
  }

  lemma {:induction false} SplitAfterPiece(a: string, rest: string, c: char)
    requires c !in a
    ensures Split(a + [c] + rest, c) == [a] + Split(rest, c)
    decreases |a|
  {
    var s := a + [c] + rest;
    if a == [] {
      assert s[1..] == rest;
    } else {
      assert s[1..] == a[1..] + [c] + rest;
      assert c !in a[1..];
      SplitAfterPiece(a[1..], rest, c);
      assert [a[0]] + a[1..] == a;
    }
  }

  /** Splitting undoes joining, provided no piece contains the separator. */
  lemma {:induction false} SplitJoin(xs: seq<string>, c: char)
    requires |xs| >= 1
    requires forall i :: 0 <= i < |xs| ==> c !in xs[i]
    ensures Split(Join(xs, [c]), c) == xs
    decreases |xs|
  {
    if |xs| == 1 {
      SplitNoSeparator(xs[0], c);
    } else {
      SplitJoin(xs[1..], c);
      SplitAfterPiece(xs[0], Join(xs[1..], [c]), c);
      assert xs[0] + [c] + Join(xs[1..], [c]) == Join(xs, [c]);
      assert [xs[0]] + xs[1..] == xs;
    }
  }

  /** Joining with `", "` is joining with `","` after prefixing every piece
      but the first with a space. */
  lemma {:induction false} JoinCommaSpace(xs: seq<string>)
    requires |xs| >= 1
    ensures Join(xs, ", ") == Join([xs[0]] + seq(|xs| - 1, i requires 0 <= i < |xs| - 1 => " " + xs[i + 1]), ",")
    decreases |xs|
  {
    var ys := [xs[0]] + seq(|xs| - 1, i requires 0 <= i < |xs| - 1 => " " + xs[i + 1]);
    if |xs| > 1 {
      var tail := xs[1..];
      JoinCommaSpace(tail);
      var zs := [tail[0]] + seq(|tail| - 1, i requires 0 <= i < |tail| - 1 => " " + tail[i + 1]);
      assert Join(tail, ", ") == Join(zs, ",");
      if |xs| == 2 {
        assert ys == [xs[0], " " + xs[1]];
      } else {
        var zs' := [" " + tail[0]] + zs[1..];
        assert ys[1..] == zs';
        assert Join(zs', ",") == " " + Join(zs, ",");
      }
    }
  }

  /** Splitting a `", "`-joined list of comma-free pieces on commas gives
      the pieces back, every one but the first with its leading space. */
  lemma SplitCommaSpaceJoin(xs: seq<string>)
    requires |xs| >= 1
    requires forall i :: 0 <= i < |xs| ==> ',' !in xs[i]
    ensures var items := Split(Join(xs, ", "), ',');
      |items| == |xs| && items[0] == xs[0]
      && forall i :: 1 <= i < |xs| ==> items[i] == " " + xs[i]
  {
    JoinCommaSpace(xs);
    var ys := [xs[0]] + seq(|xs| - 1, i requires 0 <= i < |xs| - 1 => " " + xs[i + 1]);
    forall i | 0 <= i < |ys|
      ensures ',' !in ys[i]
    {
      if i > 0 {
        assert ys[i] == " " + xs[i];
      }
    }
    SplitJoin(ys, ',');
  }

  /** `str(xs)` of a list of strings without quote characters: each
      element in single quotes, separated by `", "`, in brackets. */
  function ListRepr(xs: seq<string>): (r: string)
    ensures |r| >= 2 && r[0] == '[' && r[|r| - 1] == ']'
  {
    "[" + Join(seq(|xs|, i requires 0 <= i < |xs| => "'" + xs[i] + "'"), ", ") + "]"
  }

  lemma ListReprSingle(s: string)
    ensures ListRepr([s]) == "['" + s + "']"
  {
    assert seq(1, i requires 0 <= i < 1 => "'" + [s][i] + "'") == ["'" + s + "'"];
  }

  /** `sub in s` (substring test). */
  predicate Contains(s: string, sub: string)
    decreases |s|
  {
    if |s| < |sub| then false
    else s[..|sub|] == sub || (s != [] && Contains(s[1..], sub))
  }

  lemma {:induction false} ContainsPrefix(sub: string, s: string)
    ensures Contains(sub + s, sub)
  {
    assert (sub + s)[..|sub|] == sub;
  }

  /** A string cannot contain a pattern whose first character it lacks. */
  lemma {:induction false} NotContainsWithoutFirst(s: string, sub: string)
    requires sub != [] && sub[0] !in s
    ensures !Contains(s, sub)
    decreases |s|
  {
    if |s| >= |sub| {
      assert s[..|sub|][0] == s[0];
      if s != [] {
        assert sub[0] !in s[1..];
        NotContainsWithoutFirst(s[1..], sub);
      }
    }
  }

  /** `s.replace(pat, rep)`: every non-overlapping occurrence of `pat`,
      scanning from the left, is replaced by `rep`. */
  function Replace(s: string, pat: string, rep: string): (r: string)
    requires pat != []
    ensures !Contains(s, pat) ==> r == s
    decreases |s|
  {
    if |s| < |pat| then s
    else if s[..|pat|] == pat then rep + Replace(s[|pat|..], pat, rep)
    else [s[0]] + Replace(s[1..], pat, rep)
  }

  /** A leading part that lacks the pattern's first character passes through a replacement untouched. */
  lemma {:induction false} ReplaceSkip(a: string, b: string, pat: string, rep: string)
    requires pat != [] && pat[0] !in a
    ensures Replace(a + b, pat, rep) == a + Replace(b, pat, rep)
    decreases |a|
  {
    if a != [] {
      var s := a + b;
      assert pat[0] !in a[1..];
      ReplaceSkip(a[1..], b, pat, rep);
      assert s[1..] == a[1..] + b;
      if |s| >= |pat| {
        assert s[..|pat|][0] == a[0];
        assert s[..|pat|] != pat;
        assert Replace(s, pat, rep) == [a[0]] + Replace(a[1..] + b, pat, rep);
      } else {
        assert |b| < |pat|;
      }
      assert [a[0]] + a[1..] == a;
    } else {
      assert a + b == b;
    }
  }

  /** A replacement neither creates nor removes a character that the pattern
      and its replacement both contain, or both lack. */
  lemma {:induction false} ReplaceKeepsChar(s: string, pat: string, rep: string, ch: char)
    requires pat != []
    requires ch in pat <==> ch in rep
    ensures ch in Replace(s, pat, rep) <==> ch in s
    decreases |s|
  {
    if |s| >= |pat| {
      if s[..|pat|] == pat {
        ReplaceKeepsChar(s[|pat|..], pat, rep, ch);
        assert s == s[..|pat|] + s[|pat|..];
      } else {
        ReplaceKeepsChar(s[1..], pat, rep, ch);
        assert s == [s[0]] + s[1..];
      }
    }
  }

  /** Every character of a piece is a character of the joined string. */
  lemma {:induction false} JoinHasPieceChars(xs: seq<string>, sep: string, i: nat, ch: char)
    requires i < |xs| && ch in xs[i]
    ensures ch in Join(xs, sep)
    decreases |xs|
  {
    if |xs| > 1 {
      if i > 0 {
        JoinHasPieceChars(xs[1..], sep, i - 1, ch);
      }
    }
  }

  /** Every character of a piece of a split is a character of the string split. */
  lemma SplitHasNoNewChars(s: string, c: char, i: nat, ch: char)
    requires i < |Split(s, c)| && ch in Split(s, c)[i]
    ensures ch in s
  {
    JoinHasPieceChars(Split(s, c), [c], i, ch);
  }

  /** Stripping only removes characters. */
  lemma StripHasNoNewChars(s: string, ch: char)
    requires ch in Strip(s)
    ensures ch in s
  {
    var l := TrimLeft(s);
    assert ch in l;
  }

  /** Stripping keeps every character that is not whitespace. */
  lemma StripKeepsNonSpace(s: string, ch: char)
    requires ch in s && !IsSpace(ch)
    ensures ch in Strip(s)
  {
    var i :| 0 <= i < |s| && s[i] == ch;
    TrimLeftKeeps(s, i);
    var j := i - (|s| - |TrimLeft(s)|);
    TrimRightKeeps(TrimLeft(s), j);
    assert Strip(s)[j] == ch;
  }

  lemma TrimLeftKeeps(s: string, i: nat)
    requires i < |s| && !IsSpace(s[i])
    ensures i >= |s| - |TrimLeft(s)| && TrimLeft(s)[i - (|s| - |TrimLeft(s)|)] == s[i]
  {
  }

  lemma TrimRightKeeps(s: string, i: nat)
    requires i < |s| && !IsSpace(s[i])
    ensures i < |TrimRight(s)| && TrimRight(s)[i] == s[i]
  {
  }

  /** A character that is not whitespace and is missing after stripping was missing before. */
  lemma StripLacks(s: string, ch: char)
    requires !IsSpace(ch) && ch !in Strip(s)
    ensures ch !in s
  {
    if ch in s {
      StripKeepsNonSpace(s, ch);
    }
  }

  /** Splitting gives a single piece exactly when the separator does not occur. */
  lemma SplitOnePieceIff(s: string, c: char)
    ensures |Split(s, c)| == 1 <==> c !in s
  {
    if c !in s {
      SplitNoSeparator(s, c);
    }
  }

  /** A string with no whitespace at either end is its own strip. */
  lemma StripUnchanged(s: string)
    requires s == [] || (!IsSpace(s[0]) && !IsSpace(s[|s| - 1]))
    ensures Strip(s) == s
  {
  }

  lemma StripIdempotent(s: string)
    ensures Strip(Strip(s)) == Strip(s)
  {
    StripTrimmed(s);
    StripUnchanged(Strip(s));
  }

  /** `str(d)` for one decimal digit. */
  function DigitChar(d: nat): (ch: char)
    requires d < 10
    ensures IsDigit(ch) && ch as int - '0' as int == d
  {
    ('0' as int + d) as char
  }

  /** `str(n)` for a natural number: its decimal digits, most significant first. */
  function NatToString(n: nat): (r: string)
    ensures |r| >= 1 && AllDigits(r)
  {
    if n < 10 then [DigitChar(n)] else NatToString(n / 10) + [DigitChar(n % 10)]
  }

  /** `str(n)` for an integer (what an f-string renders). */
  function IntToString(n: int): string {
    if n < 0 then "-" + NatToString(-n) else NatToString(n)
  }

  /** The number a string of decimal digits denotes. */
  function DigitsValue(s: string): nat
    requires AllDigits(s)
  {
    if s == [] then 0 else 10 * DigitsValue(s[..|s| - 1]) + (s[|s| - 1] as int - '0' as int)
  }

  /** `int(s)` for an optional minus sign followed by decimal digits. */
  function ParseInt(s: string): Option<int> {
    if |s| >= 2 && s[0] == '-' && AllDigits(s[1..]) then Some(0 - DigitsValue(s[1..]) as int)
    else if |s| >= 1 && AllDigits(s) then Some(DigitsValue(s))
    else None
  }

  lemma {:induction false} NatToStringValue(n: nat)
    ensures DigitsValue(NatToString(n)) == n
  {
    if n >= 10 {
      NatToStringValue(n / 10);
      var s := NatToString(n);
      assert s[..|s| - 1] == NatToString(n / 10);
    }
  }

  /** The decimal rendering of an integer reads back as that integer. */
  lemma IntToStringRoundTrip(n: int)
    ensures ParseInt(IntToString(n)) == Some(n)
  {
    if n < 0 {
      NatToStringValue(-n);
      var s := IntToString(n);
      assert s[1..] == NatToString(-n);
    } else {
      NatToStringValue(n);
    }
  }
}
