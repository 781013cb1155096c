/**
 * The PHP built-ins the mail helper relies on, with the semantics it depends on:
 * `empty()` on strings and arrays, `str_replace` with string arguments,
 * `implode`, and `intval` on a string.
 */
module Php {
  import opened Wrappers

  // ---------------------------------------------------------------------------
  // empty()

  /** `empty($s)` for a string: exactly "" and "0" are falsy. */
  predicate IsEmptyString(s: string)
  {
    s == "" || s == "0"
  }

  /** `empty($v)` for a property that holds a string or is still `null`. */
  predicate IsEmptyOrNull(v: Option<string>)
  {
    v.None? || IsEmptyString(v.value)
  }

  /** `empty($a)` for an array: only the array with no elements. */
  predicate IsEmptyArray<T>(a: seq<T>)
  {
    |a| == 0
  }

  // ---------------------------------------------------------------------------
  // str_replace($search, $replace, $subject) with strings

  /** `pat` is the substring of `s` that starts at index `i`. */
  predicate MatchesAt(pat: string, s: string, i: nat)
  {
    i + |pat| <= |s| && s[i..i + |pat|] == pat
  }

  /** `pat` occurs somewhere in `s` as a contiguous substring. */
  predicate Occurs(pat: string, s: string)
  {
    exists i: nat :: i <= |s| && MatchesAt(pat, s, i)
  }

  /**
   * `str_replace` on strings: scan left to right, replace each occurrence of
   * `search` and resume after it, so occurrences never overlap. An empty
   * `search` leaves the subject as it is.
   */
  function StrReplace(search: string, replace: string, subject: string): string
    decreases |subject|
  {
    if search == [] || |subject| < |search| then subject
    else if subject[..|search|] == search then
      replace + StrReplace(search, replace, subject[|search|..])
    else
      [subject[0]] + StrReplace(search, replace, subject[1..])
  }

  /** The number of replacements `StrReplace` makes (what `str_replace` reports through `&$count`). */
  function ReplaceCount(search: string, subject: string): nat
    decreases |subject|
  {
    if search == [] || |subject| < |search| then 0
    else if subject[..|search|] == search then 1 + ReplaceCount(search, subject[|search|..])
    else ReplaceCount(search, subject[1..])
  }

  /** A subject that does not contain the search string comes back unchanged. */
  lemma {:induction false} StrReplaceNoMatch(search: string, replace: string, subject: string)
    requires !Occurs(search, subject)
    ensures StrReplace(search, replace, subject) == subject
    decreases |subject|
  {
    if search != [] && |subject| >= |search| {
      if subject[..|search|] == search {
        assert MatchesAt(search, subject, 0);
        assert false;
      }
      NoMatchInTail(search, subject);
      StrReplaceNoMatch(search, replace, subject[1..]);
    }
  }

  /** If `pat` is absent from `s`, it is absent from `s` without its first character. */
  lemma NoMatchInTail(pat: string, s: string)
    requires |s| > 0 && !Occurs(pat, s)
    ensures !Occurs(pat, s[1..])
  {
    if Occurs(pat, s[1..]) {
      var i: nat :| i <= |s[1..]| && MatchesAt(pat, s[1..], i);
      assert s[i + 1..i + 1 + |pat|] == s[1..][i..i + |pat|];
      assert MatchesAt(pat, s, i + 1);
    }
  }

  /** `str_replace` replaces at least once exactly when the search string occurs. */
  lemma {:induction false} ReplaceCountPositive(search: string, subject: string)
    requires search != []
    ensures ReplaceCount(search, subject) > 0 <==> Occurs(search, subject)
    decreases |subject|
  {
    if |subject| < |search| {
    } else if subject[..|search|] == search {
      assert MatchesAt(search, subject, 0);
    } else {
      ReplaceCountPositive(search, subject[1..]);
      if Occurs(search, subject) {
        var i: nat :| i <= |subject| && MatchesAt(search, subject, i);
        assert i != 0;
        assert subject[1..][i - 1..i - 1 + |search|] == subject[i..i + |search|];
        assert MatchesAt(search, subject[1..], i - 1);
      }
      if Occurs(search, subject[1..]) {
        var i: nat :| i <= |subject[1..]| && MatchesAt(search, subject[1..], i);
        assert subject[i + 1..i + 1 + |search|] == subject[1..][i..i + |search|];
        assert MatchesAt(search, subject, i + 1);
      }
    }
  }

  /** Every replacement swaps |search| characters for |replace| characters. */
  lemma {:induction false} StrReplaceLength(search: string, replace: string, subject: string)
    ensures |StrReplace(search, replace, subject)|
         == |subject| + ReplaceCount(search, subject) * (|replace| - |search|)
    decreases |subject|
  {
    if search != [] && |subject| >= |search| {
      if subject[..|search|] == search {
        var rest := subject[|search|..];
        StrReplaceLength(search, replace, rest);
        MulSucc(ReplaceCount(search, rest), |replace| - |search|);
      } else {
        StrReplaceLength(search, replace, subject[1..]);
      }
    }
  }

  lemma MulSucc(c: int, d: int)
    ensures (1 + c) * d == d + c * d
  {
  }

  /** Replacing a string by itself changes nothing. */
  lemma {:induction false} StrReplaceSelf(search: string, subject: string)
    ensures StrReplace(search, search, subject) == subject
    decreases |subject|
  {
    if search != [] && |subject| >= |search| {
      if subject[..|search|] == search {
        StrReplaceSelf(search, subject[|search|..]);
        assert subject == subject[..|search|] + subject[|search|..];
      } else {
        StrReplaceSelf(search, subject[1..]);
        assert subject == [subject[0]] + subject[1..];
      }
    }
  }

  /**
   * A prefix none of whose characters can start a match is copied through
   * unchanged: `str_replace` only rewrites what follows it.
   */
  lemma {:induction false} StrReplaceSkipsPrefix(search: string, replace: string, prefix: string, rest: string)
    requires search != []
    requires forall i :: 0 <= i < |prefix| ==> prefix[i] != search[0]
    ensures StrReplace(search, replace, prefix + rest) == prefix + StrReplace(search, replace, rest)
    decreases |prefix|
  {
    var s := prefix + rest;
    if prefix == [] {
      assert s == rest;
    } else if |s| < |search| {
      StrReplaceShort(search, replace, rest);
    } else {
      var tail := prefix[1..];
      assert s[1..] == tail + rest;
      assert s[..|search|][0] == prefix[0];
      StrReplaceSkipsPrefix(search, replace, tail, rest);
      calc {
        StrReplace(search, replace, s);
        [prefix[0]] + StrReplace(search, replace, tail + rest);
        [prefix[0]] + (tail + StrReplace(search, replace, rest));
        { assert [prefix[0]] + tail == prefix; }
        prefix + StrReplace(search, replace, rest);
      }
    }
  }

  /** A subject shorter than the search string is returned unchanged. */
  lemma StrReplaceShort(search: string, replace: string, subject: string)
    requires |subject| < |search|
    ensures StrReplace(search, replace, subject) == subject
  {
  }

  /** A subject that starts with the search string starts, after replacement, with the replacement. */
  lemma StrReplaceLeading(search: string, replace: string, rest: string)
    requires search != []
    ensures StrReplace(search, replace, search + rest) == replace + StrReplace(search, replace, rest)
  {
    var s := search + rest;
    assert s[..|search|] == search;
    assert s[|search|..] == rest;
  }

  // ---------------------------------------------------------------------------
  // implode($glue, $pieces)

  /** `implode`: the pieces in order, with `glue` between neighbours. */
  function Implode(glue: string, pieces: seq<string>): string
  {
    if |pieces| == 0 then ""
    else if |pieces| == 1 then pieces[0]
    else Implode(glue, pieces[..|pieces| - 1]) + glue + pieces[|pieces| - 1]
  }

  /** Reading `implode` from the front: the first piece, then the glue, then the rest joined. */
  lemma {:induction false} ImplodeCons(glue: string, first: string, rest: seq<string>)
    requires rest != []
    ensures Implode(glue, [first] + rest) == first + glue + Implode(glue, rest)
    decreases |rest|
  {
    var all := [first] + rest;
    if |rest| == 1 {
      assert all[..1] == [first];
    } else {
      assert all[..|all| - 1] == [first] + rest[..|rest| - 1];
      ImplodeCons(glue, first, rest[..|rest| - 1]);
    }
  }

  /** The joined string holds every piece plus one glue per gap. */
  lemma {:induction false} ImplodeLength(glue: string, pieces: seq<string>)
    requires pieces != []
    ensures |Implode(glue, pieces)| == TotalLength(pieces) + (|pieces| - 1) * |glue|
    decreases |pieces|
  {
    if |pieces| > 1 {
      var init := pieces[..|pieces| - 1];
      ImplodeLength(glue, init);
      TotalLengthSnoc(init, pieces[|pieces| - 1]);
      assert init + [pieces[|pieces| - 1]] == pieces;
    }
  }

  /** The sum of the lengths of the pieces. */
  function TotalLength(pieces: seq<string>): nat
  {
    if pieces == [] then 0 else |pieces[0]| + TotalLength(pieces[1..])
  }

  lemma {:induction false} TotalLengthSnoc(pieces: seq<string>, last: string)
    ensures TotalLength(pieces + [last]) == TotalLength(pieces) + |last|
    decreases |pieces|
  {
    if pieces != [] {
      assert (pieces + [last])[1..] == pieces[1..] + [last];
      TotalLengthSnoc(pieces[1..], last);
    }
  }

  // ---------------------------------------------------------------------------
  // intval($s) for a string

  /** The characters PHP skips before a number: space, \t, \n, \v, \f, \r. */
  predicate IsSpace(c: char)
  {
    c == ' ' || ('\t' <= c <= '\r')
  }

  predicate IsDigit(c: char)
  {
    '0' <= c <= '9'
  }

  /** `s` without its leading whitespace. */
  function TrimLeft(s: string): (r: string)
    ensures |r| <= |s| && r == s[|s| - |r|..]
    ensures r == [] || !IsSpace(r[0])
    ensures forall i :: 0 <= i < |s| - |r| ==> IsSpace(s[i])
  {
    if s != [] && IsSpace(s[0]) then TrimLeft(s[1..]) else s
  }

  /** The longest prefix of `s` made of decimal digits. */
  function LeadingDigits(s: string): (r: string)
    ensures |r| <= |s| && r == s[..|r|]
    ensures forall i :: 0 <= i < |r| ==> IsDigit(r[i])
    ensures |r| == |s| || !IsDigit(s[|r|])
  {
    if s != [] && IsDigit(s[0]) then [s[0]] + LeadingDigits(s[1..]) else []
  }

  /** The value of a string of decimal digits, most significant first. */
  function DigitsValue(d: string): nat
    requires forall i :: 0 <= i < |d| ==> IsDigit(d[i])
  {
    if d == [] then 0
    else
      var last := d[|d| - 1];
      assert IsDigit(last);
      10 * DigitsValue(d[..|d| - 1]) + (last as int - '0' as int)
  }

  /** A digit string has value zero exactly when all its digits are '0'. */
  lemma {:induction false} DigitsValueZero(d: string)
    requires forall i :: 0 <= i < |d| ==> IsDigit(d[i])
    ensures DigitsValue(d) == 0 <==> forall i :: 0 <= i < |d| ==> d[i] == '0'
    decreases |d|
  {
    if d != [] {
      var init := d[..|d| - 1];
      DigitsValueZero(init);
      if DigitsValue(d) == 0 {
        forall i | 0 <= i < |d| ensures d[i] == '0' {
          if i < |d| - 1 { assert init[i] == d[i]; }
        }
      }
    }
  }

  /** The text after the leading whitespace and an optional sign: where `intval` reads its digits. */
  function Unsigned(s: string): (r: string)
    ensures |r| <= |s| && r == s[|s| - |r|..]
  {
    var t := TrimLeft(s);
    if t != [] && (t[0] == '-' || t[0] == '+') then t[1..] else t
  }

  /** Whether the number `intval` reads from `s` carries a minus sign. */
  predicate Negative(s: string)
  {
    var t := TrimLeft(s);
    t != [] && t[0] == '-'
  }

  /** The digit run `intval` reads from `s`: the longest run of digits after the whitespace and the sign. */
  function NumericPrefix(s: string): (r: string)
    ensures |r| <= |Unsigned(s)| && r == Unsigned(s)[..|r|]
    ensures forall i :: 0 <= i < |r| ==> IsDigit(r[i])
    ensures |r| == |Unsigned(s)| || !IsDigit(Unsigned(s)[|r|])
  {
    LeadingDigits(Unsigned(s))
  }

  /**
   * `intval` of a string: leading whitespace, an optional sign, then the
   * longest run of decimal digits; whatever follows is ignored, and a string
   * with no digits there is 0.
   */
  function IntVal(s: string): int
  {
    var n: int := DigitsValue(NumericPrefix(s));
    if Negative(s) then -n else n
  }

  /**
   * `intval` is falsy exactly when the digits it reads are all zeros, which
   * includes a string that does not start with a number at all.
   */
  lemma IntValZero(s: string)
    ensures IntVal(s) == 0 <==> forall i :: 0 <= i < |NumericPrefix(s)| ==> NumericPrefix(s)[i] == '0'
  {
    DigitsValueZero(NumericPrefix(s));
  }
}
