/**
 * The string logic of `EmailNotification`: the `{{KEY}}` placeholder of a
 * variable, substitution of an ordered key => value map into a text, and the
 * header lines the setters emit.
 */
module Controllers {
  import opened Php

  /** A PHP associative array of substitution variables, in insertion order. */
  type Vars = seq<(string, string)>

  // ---------------------------------------------------------------------------
  // getShortcodeFromVariableHandle

  /** The placeholder written in a text for variable `key`: the key inside double braces. */
  function Placeholder(key: string): (r: string)
    ensures |r| == |key| + 4
    ensures r[..2] == "{{" && r[2..|key| + 2] == key && r[|key| + 2..] == "}}"
  {
    "{{" + key + "}}"
  }

  /** Distinct keys have distinct placeholders, so one key's substitution never targets another key. */
  lemma PlaceholderInjective(k1: string, k2: string)
    ensures Placeholder(k1) == Placeholder(k2) ==> k1 == k2
  {
    if Placeholder(k1) == Placeholder(k2) {
      assert k1 == Placeholder(k1)[2..|k1| + 2];
    }
  }

  // ---------------------------------------------------------------------------
  // replaceEmailVariables

  /**
   * What `replaceEmailVariables` computes: a left fold over the map in
   * insertion order, each step a `str_replace` of one key's placeholder by its value.
   */
  function Substitute(content: string, vars: Vars): string
    decreases |vars|
  {
    if vars == [] then content
    else Substitute(StrReplace(Placeholder(vars[0].0), vars[0].1, content), vars[1..])
  }

  /** `replaceEmailVariables`: the `foreach` that reassigns `$content` once per variable. */
  method ReplaceEmailVariables(content: string, vars: Vars) returns (r: string)
    ensures IsEmptyArray(vars) ==> r == content
    ensures r == Substitute(content, vars)
  {
    r := content;
    if !IsEmptyArray(vars) {
      var i := 0;
      while i < |vars|
        invariant 0 <= i <= |vars|
        invariant Substitute(r, vars[i..]) == Substitute(content, vars)
      {
        assert vars[i..][1..] == vars[i + 1..];
        r := StrReplace(Placeholder(vars[i].0), vars[i].1, r);
        i := i + 1;
      }
    }
  }

  /** A text that contains no placeholder of any key in the map is returned unchanged. */
  lemma {:induction false} SubstituteUntouched(content: string, vars: Vars)
    requires forall i :: 0 <= i < |vars| ==> !Occurs(Placeholder(vars[i].0), content)
    ensures Substitute(content, vars) == content
    decreases |vars|
  {
    if vars != [] {
      StrReplaceNoMatch(Placeholder(vars[0].0), vars[0].1, content);
      assert forall i :: 0 <= i < |vars[1..]| ==> vars[1..][i] == vars[i + 1];
      SubstituteUntouched(content, vars[1..]);
    }
  }

  /** Substituting a map made of two parts is substituting the first part, then the second. */
  lemma {:induction false} SubstituteConcat(content: string, first: Vars, second: Vars)
    ensures Substitute(content, first + second) == Substitute(Substitute(content, first), second)
    decreases |first|
  {
    if first == [] {
      assert first + second == second;
    } else {
      assert (first + second)[0] == first[0];
      assert (first + second)[1..] == first[1..] + second;
      SubstituteConcat(StrReplace(Placeholder(first[0].0), first[0].1, content), first[1..], second);
    }
  }

  /**
   * A text that ends in one placeholder after a prefix without braces becomes
   * the prefix followed by the variable's value.
   */
  lemma SubstituteAfterPrefix(prefix: string, key: string, value: string)
    requires forall i :: 0 <= i < |prefix| ==> prefix[i] != '{'
    ensures Substitute(prefix + Placeholder(key), [(key, value)]) == prefix + value
  {
    var p := Placeholder(key);
    assert p[0] == '{';
    StrReplaceSkipsPrefix(p, value, prefix, p);
    StrReplaceLeading(p, value, []);
    assert p + [] == p;
    assert value + [] == value;
    var vars := [(key, value)];
    assert vars[1..] == [];
  }

  /** The example of the doc comment: `Hello, {{EMAIL_ADDRESS}}` becomes `Hello, ` and the address. */
  lemma HelloExample(address: string)
    ensures Substitute("Hello, {{EMAIL_ADDRESS}}", [("EMAIL_ADDRESS", address)]) == "Hello, " + address
  {
    var prefix, key := "Hello, ", "EMAIL_ADDRESS";
    assert "Hello, {{EMAIL_ADDRESS}}" == prefix + Placeholder(key);
    SubstituteAfterPrefix(prefix, key, address);
  }

  /**
   * Map order matters. Content that is `a`'s placeholder first becomes `a`'s
   * value `v`: when `b` comes after `a` in the map, `b`'s substitution is then
   * applied to `v`; when `b` comes before, `v` is left as it is, provided
   * `b`'s placeholder does not occur inside `a`'s.
   */
  lemma SubstitutionOrderMatters(a: string, b: string, v: string, x: string)
    ensures Substitute(Placeholder(a), [(a, v), (b, x)]) == StrReplace(Placeholder(b), x, v)
    ensures !Occurs(Placeholder(b), Placeholder(a)) ==>
              Substitute(Placeholder(a), [(b, x), (a, v)]) == v
  {
    var pa, pb := Placeholder(a), Placeholder(b);
    StrReplaceLeading(pa, v, []);
    assert pa + [] == pa && v + [] == v;
    var v1: Vars := [(a, v), (b, x)];
    assert v1[1..] == [(b, x)] && v1[1..][1..] == [];
    assert Substitute(pa, v1) == Substitute(v, [(b, x)]);
    if !Occurs(pb, pa) {
      StrReplaceNoMatch(pb, x, pa);
      var v2: Vars := [(b, x), (a, v)];
      assert v2[1..] == [(a, v)] && v2[1..][1..] == [];
      assert Substitute(pa, [(a, v)]) == v;
      assert Substitute(pa, v2) == Substitute(pa, [(a, v)]);
    }
  }

  /** A key with neither brace in it, as the keys of the variable maps normally are. */
  predicate BraceFree(key: string)
  {
    forall i :: 0 <= i < |key| ==> key[i] != '{' && key[i] != '}'
  }

  /** The placeholder of one brace-free key never occurs inside that of another. */
  lemma PlaceholderNotInOther(a: string, b: string)
    requires BraceFree(a) && BraceFree(b) && a != b
    ensures !Occurs(Placeholder(b), Placeholder(a))
  {
    forall i: nat | i <= |Placeholder(a)| ensures !MatchesAt(Placeholder(b), Placeholder(a), i) {
      PlaceholderMatch(a, b, i);
    }
  }

  /** Where the placeholder of a brace-free key matches inside another's, the two keys are equal. */
  lemma PlaceholderMatch(a: string, b: string, i: nat)
    requires BraceFree(a) && BraceFree(b)
    ensures MatchesAt(Placeholder(b), Placeholder(a), i) ==> a == b
  {
    var pa, pb := Placeholder(a), Placeholder(b);
    if MatchesAt(pb, pa, i) {
      assert forall j :: 2 <= j < |a| + 2 ==> pa[j] == a[j - 2];
      assert pa[i + 1] == pb[1] == '{';
      assert i == 0;
      assert pa[..|pb|] == pb;
      assert pa[|b| + 2] == pb[|b| + 2] == '}';
      assert |a| == |b|;
      assert a == pa[2..|a| + 2] == pb[2..|b| + 2] == b;
    }
  }

  /** An instance of the law, for the keys `A` and `B`, where `A`'s value is `B`'s placeholder. */
  lemma SubstitutionOrderExample(x: string)
    ensures Substitute("{{A}}", [("A", "{{B}}"), ("B", x)]) == x
    ensures Substitute("{{A}}", [("B", x), ("A", "{{B}}")]) == "{{B}}"
  {
    var b := "{{B}}";
    assert Placeholder("A") == "{{A}}" && Placeholder("B") == b;
    PlaceholderNotInOther("A", "B");
    SubstitutionOrderMatters("A", "B", b, x);
    StrReplaceLeading(b, x, []);
    assert b + [] == b && x + [] == x;
  }

  // ---------------------------------------------------------------------------
  // Header lines built by the setters

  /** The two headers `setHeaders` uses when it is given none. */
  const DefaultHeaders: seq<string> := ["MIME-Version: 1.0", "Content-Type: text/html;charset=utf-8"]

  /** The headers `setFrom` appends: none for an empty sender. */
  function FromHeaders(from: string): seq<string>
  {
    if IsEmptyString(from) then []
    else ["From: " + from, "Reply-To: " + from, "Return-Path: " + from]
  }

  /** The one header `setCc` / `setBcc` appends, `prefix` followed by the comma-joined list; none for an empty list. */
  function ListHeader(prefix: string, addresses: seq<string>): seq<string>
  {
    if IsEmptyArray(addresses) then [] else [prefix + Implode(",", addresses)]
  }
}
