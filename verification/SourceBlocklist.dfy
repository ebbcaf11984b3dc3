/**
 The blocklist that keeps bindgen from generating the `ESource*` types, with one name exempt.

 The regular expressions of the blocklist have no negative lookahead, so the exemption becomes a
 union: for every proper prefix of the exempt name, the prefix itself, and the prefix followed by a
 character other than the next one. A pattern must match the whole of a name.
 */
module SourceBlocklist {

  /** The pieces of a pattern: a literal, any character but one, and any run of letters. */
  datatype Item = Lit(c: char) | Not(c: char) | Letters

  predicate IsLetter(c: char) {
    'a' <= c <= 'z' || 'A' <= c <= 'Z'
  }

  predicate AllLetters(s: string) {
    forall i :: 0 <= i < |s| ==> IsLetter(s[i])
  }

  /** The pattern matches the whole of `s`, with a search over the lengths of each run. */
  predicate Matches(pattern: seq<Item>, s: string)
    decreases |s|, |pattern|
  {
    if pattern == [] then s == ""
    else match pattern[0]
      case Lit(c) => s != "" && s[0] == c && Matches(pattern[1..], s[1..])
      case Not(c) => s != "" && s[0] != c && Matches(pattern[1..], s[1..])
      case Letters => Matches(pattern[1..], s) || (s != "" && IsLetter(s[0]) && Matches(pattern, s[1..]))
  }

  function Literal(word: string): (pattern: seq<Item>) {
    seq(|word|, i requires 0 <= i < |word| => Lit(word[i]))
  }

  lemma {:induction false} LiteralThen(word: string, rest: seq<Item>, s: string)
    ensures Matches(Literal(word) + rest, s) <==> word <= s && Matches(rest, s[|word|..])
  {
    var pattern := Literal(word) + rest;
    if word == "" {
      assert pattern == rest && s[0..] == s;
    } else {
      assert pattern[1..] == Literal(word[1..]) + rest;
      if s != "" && s[0] == word[0] {
        LiteralThen(word[1..], rest, s[1..]);
        assert word <= s <==> word[1..] <= s[1..] by {
          assert word == [word[0]] + word[1..] && s == [s[0]] + s[1..];
        }
        if word <= s {
          assert s[1..][|word| - 1..] == s[|word|..];
        }
      }
    }
  }

  lemma {:induction false} RunMatches(s: string)
    ensures Matches([Letters], s) <==> AllLetters(s)
  {
    assert [Letters][1..] == [];
    if s != "" {
      RunMatches(s[1..]);
      assert s == [s[0]] + s[1..];
    }
  }

  // ---------------------------------------------------------------------------
  // The patterns

  function Prefixed(underscored: bool, word: string): (s: string) {
    if underscored then "_" + word else word
  }

  /** The prefix of length `n`, alone or extended by another character than the next one. */
  function PatternOf(exempt: string, n: nat, underscored: bool, extended: bool): (pattern: seq<Item>)
    requires n < |exempt|
  {
    Literal(Prefixed(underscored, exempt[..n])) + (if extended then [Not(exempt[n]), Letters] else [])
  }

  /** The pattern belongs to the list: one for each proper prefix from `base` on, with and without an
      underscore, alone and extended. */
  ghost predicate Listed(exempt: string, base: nat, pattern: seq<Item>) {
    exists n: nat, underscored, extended ::
      base <= n < |exempt| && pattern == PatternOf(exempt, n, underscored, extended)
  }

  method BlockedSourceTypes(exempt: string, base: nat) returns (patterns: seq<seq<Item>>)
    requires base <= |exempt|
    ensures |patterns| == 4 * (|exempt| - base)
    ensures forall pattern :: pattern in patterns <==> Listed(exempt, base, pattern)
  {
    patterns := [];
    for n := base to |exempt|
      invariant |patterns| == 4 * (n - base)
      invariant forall pattern :: pattern in patterns ==> Listed(exempt, base, pattern)
      invariant forall m: nat, underscored, extended :: base <= m < n ==> PatternOf(exempt, m, underscored, extended) in patterns
    {
      var prefix := exempt[..n];
      var next := exempt[n];
      for k := 0 to 2
        invariant |patterns| == 4 * (n - base) + 2 * k
        invariant forall pattern :: pattern in patterns ==> Listed(exempt, base, pattern)
        invariant forall m: nat, underscored, extended :: base <= m < n ==> PatternOf(exempt, m, underscored, extended) in patterns
        invariant k >= 1 ==> forall extended :: PatternOf(exempt, n, false, extended) in patterns
        invariant k >= 2 ==> forall extended :: PatternOf(exempt, n, true, extended) in patterns
      {
        var start := Literal(Prefixed(k == 1, prefix));
        assert PatternOf(exempt, n, k == 1, false) == start;
        assert PatternOf(exempt, n, k == 1, true) == start + [Not(next), Letters];
        patterns := patterns + [start, start + [Not(next), Letters]];
        assert start in patterns && start + [Not(next), Letters] in patterns;
      }
    }
  }

  /** Some pattern of the list matches the name. */
  ghost predicate Blocked(exempt: string, base: nat, name: string) {
    exists pattern :: Listed(exempt, base, pattern) && Matches(pattern, name)
  }

  // ---------------------------------------------------------------------------
  // What the list matches

  function CommonPrefix(s: string, t: string): (n: nat)
    ensures n <= |s| && n <= |t| && s[..n] == t[..n]
    ensures n < |s| && n < |t| ==> s[n] != t[n]
  {
    if s != "" && t != "" && s[0] == t[0] then
      var n := 1 + CommonPrefix(s[1..], t[1..]);
      assert s[..n] == [s[0]] + s[1..][..n - 1] && t[..n] == [t[0]] + t[1..][..n - 1];
      n
    else 0
  }

  lemma {:induction false} CommonPrefixIs(s: string, t: string, n: nat)
    requires n <= |s| && n <= |t| && s[..n] == t[..n]
    requires n < |s| && n < |t| ==> s[n] != t[n]
    ensures n == CommonPrefix(s, t)
  {
  }

  /** Only letters follow the character at which the name leaves the exempt name. */
  predicate PlainAfter(exempt: string, name: string) {
    var n := CommonPrefix(name, exempt);
    n < |name| ==> AllLetters(name[n + 1..])
  }

  /** The name without the underscore of a C struct tag. */
  function Untagged(name: string): (r: string) {
    if "_" <= name then name[1..] else name
  }

  /** The name parts from the exempt one after `n` characters, and ends there unless `extended`. */
  predicate PartsAt(exempt: string, n: nat, extended: bool, t: string) {
    CommonPrefix(t, exempt) == n && (extended <==> n < |t|) && PlainAfter(exempt, t)
  }

  lemma {:induction false} TailMatches(c: char, s: string)
    ensures Matches([Not(c), Letters], s) <==> s != "" && s[0] != c && AllLetters(s[1..])
  {
    assert [Not(c), Letters][1..] == [Letters];
    if s != "" {
      RunMatches(s[1..]);
    }
  }

  lemma {:induction false} RestParts(exempt: string, n: nat, extended: bool, t: string)
    requires n < |exempt|
    ensures PartsAt(exempt, n, extended, t) <==>
            exempt[..n] <= t && Matches(if extended then [Not(exempt[n]), Letters] else [], t[n..])
  {
    if PartsAt(exempt, n, extended, t) {
      assert exempt[..n] == t[..n] <= t;
    }
    if exempt[..n] <= t {
      var rest := t[n..];
      TailMatches(exempt[n], rest);
      if n < |t| {
        assert rest[0] == t[n] && rest[1..] == t[n + 1..];
      }
      if n == |t| || t[n] != exempt[n] {
        CommonPrefixIs(t, exempt, n);
      }
    }
  }

  lemma {:induction false} PatternMatches(exempt: string, n: nat, underscored: bool, extended: bool, name: string)
    requires 0 < n < |exempt| && exempt[0] != '_'
    ensures Matches(PatternOf(exempt, n, underscored, extended), name) <==>
            ("_" <= name <==> underscored) && PartsAt(exempt, n, extended, Untagged(name))
  {
    var tail := if extended then [Not(exempt[n]), Letters] else [];
    LiteralThen(Prefixed(underscored, exempt[..n]), tail, name);
    WordStarts(underscored, exempt[..n], name);
    RestParts(exempt, n, extended, Untagged(name));
  }

  lemma {:induction false} WordStarts(underscored: bool, prefix: string, name: string)
    requires prefix != "" && prefix[0] != '_'
    ensures Prefixed(underscored, prefix) <= name <==> ("_" <= name <==> underscored) && prefix <= Untagged(name)
    ensures Prefixed(underscored, prefix) <= name ==> name[|Prefixed(underscored, prefix)|..] == Untagged(name)[|prefix|..]
  {
  }

  lemma {:induction false} BlockedParts(exempt: string, base: nat, name: string)
    requires base > 0 && exempt != "" && exempt[0] != '_'
    ensures Blocked(exempt, base, name) <==>
            base <= CommonPrefix(Untagged(name), exempt) < |exempt| && PlainAfter(exempt, Untagged(name))
  {
    var t := Untagged(name);
    var n := CommonPrefix(t, exempt);
    if Blocked(exempt, base, name) {
      var pattern :| Listed(exempt, base, pattern) && Matches(pattern, name);
      var m: nat, underscored, extended :| base <= m < |exempt| && pattern == PatternOf(exempt, m, underscored, extended);
      PatternMatches(exempt, m, underscored, extended, name);
    }
    if base <= n < |exempt| && PlainAfter(exempt, t) {
      var pattern := PatternOf(exempt, n, "_" <= name, n < |t|);
      PatternMatches(exempt, n, "_" <= name, n < |t|, name);
      assert Listed(exempt, base, pattern);
    }
  }

  /** A name is blocked exactly if it starts with the base, does not start with the exempt name, and
      has only letters after the character at which it leaves the exempt name. */
  lemma {:induction false} BlockedExactly(exempt: string, base: nat, name: string)
    requires 0 < base <= |exempt| && exempt[0] != '_'
    ensures Blocked(exempt, base, name) <==>
            exempt[..base] <= Untagged(name) && !(exempt <= Untagged(name)) && PlainAfter(exempt, Untagged(name))
  {
    BlockedParts(exempt, base, name);
    PartsBetween(exempt, base, Untagged(name));
  }

  /** How much a name shares with the exempt one tells which of the two prefixes it starts with. */
  lemma {:induction false} PartsBetween(exempt: string, base: nat, t: string)
    requires base <= |exempt|
    ensures exempt[..base] <= t <==> base <= CommonPrefix(t, exempt)
    ensures exempt <= t <==> CommonPrefix(t, exempt) == |exempt|
  {
  }

  /** No two patterns of the list match the same name. */
  lemma {:induction false} NoOverlap(exempt: string, base: nat, p: seq<Item>, q: seq<Item>, name: string)
    requires base > 0 && exempt != "" && exempt[0] != '_'
    requires Listed(exempt, base, p) && Listed(exempt, base, q)
    requires Matches(p, name) && Matches(q, name)
    ensures p == q
  {
    var m: nat, u, e :| base <= m < |exempt| && p == PatternOf(exempt, m, u, e);
    var n: nat, v, f :| base <= n < |exempt| && q == PatternOf(exempt, n, v, f);
    PatternMatches(exempt, m, u, e, name);
    PatternMatches(exempt, n, v, f, name);
  }

  const BASE := "ESource"
  const EXEMPT := "ESourceConfigBackend"

  /** The union keeps its promise, to block each name that starts with the base except the ones
      that start with the exempt name, exactly for the names with letters after they part. */
  lemma {:induction false} PromiseKeptExactly(name: string)
    requires BASE <= Untagged(name)
    ensures (Blocked(EXEMPT, |BASE|, name) <==> !(EXEMPT <= Untagged(name))) <==>
            EXEMPT <= Untagged(name) || PlainAfter(EXEMPT, Untagged(name))
  {
    assert EXEMPT[..|BASE|] == BASE;
    BlockedExactly(EXEMPT, |BASE|, name);
  }

  /** A name with anything but a letter after the parting character is not blocked. */
  lemma {:induction false} OtherCharacterSlipsThrough(exempt: string, base: nat, name: string, n: nat, k: nat)
    requires 0 < base <= |exempt| && exempt[0] != '_' && !("_" <= name)
    requires n < |exempt| && n < k < |name| && name[..n] == exempt[..n] && name[n] != exempt[n] && !IsLetter(name[k])
    ensures !Blocked(exempt, base, name) && !(exempt <= name)
  {
    CommonPrefixIs(name, exempt, n);
    assert name[n + 1..][k - n - 1] == name[k];
    BlockedParts(exempt, base, name);
    PartsBetween(exempt, base, name);
  }

  /** A digit lets a name through. */
  lemma {:induction false} DigitSlipsThrough()
    ensures !Blocked(EXEMPT, |BASE|, "ESourceV2") && BASE <= "ESourceV2" && !(EXEMPT <= "ESourceV2")
  {
    var name := "ESourceV2";
    assert name[..7] == BASE == EXEMPT[..7] && name[7] == 'V' && EXEMPT[7] == 'C' && name[8] == '2';
    OtherCharacterSlipsThrough(EXEMPT, |BASE|, name, 7, 8);
  }

  /** Any character may be the one at which a name parts from the exempt name. */
  lemma {:induction false} AnyCharacterParts(exempt: string, base: nat, n: nat, c: char, rest: string)
    requires 0 < base <= n < |exempt| && exempt[0] != '_' && c != exempt[n] && AllLetters(rest)
    ensures Blocked(exempt, base, exempt[..n] + [c] + rest)
  {
    var name := exempt[..n] + [c] + rest;
    assert name[..n] == exempt[..n] && name[n] == c && name[n + 1..] == rest && name[0] == exempt[0];
    CommonPrefixIs(name, exempt, n);
    BlockedParts(exempt, base, name);
  }

  /** So a name with an underscore there is blocked, although it is no name of letters. */
  lemma {:induction false} UnderscoreIsBlocked()
    ensures Blocked(EXEMPT, |BASE|, BASE + ['_'] + "Abc") && !AllLetters(BASE + ['_'] + "Abc")
  {
    assert EXEMPT[..|BASE|] == BASE && EXEMPT[|BASE|] == 'C';
    AnyCharacterParts(EXEMPT, |BASE|, |BASE|, '_', "Abc");
    var name := BASE + ['_'] + "Abc";
    assert name[|BASE|] == '_';
  }

  /** A name of letters is blocked exactly if it starts with the base and not with the exempt name. */
  lemma {:induction false} LettersBlocked(exempt: string, base: nat, name: string)
    requires 0 < base <= |exempt| && exempt[0] != '_'
    requires AllLetters(Untagged(name))
    ensures Blocked(exempt, base, name) <==> exempt[..base] <= Untagged(name) && !(exempt <= Untagged(name))
  {
    BlockedExactly(exempt, base, name);
  }
}
