/**
 Generated capability names. A taken name gets the first free numeric suffix; the search ends
 because the tries are pairwise different and only finitely many names are taken.
 */
module CapabilityNames {
  import opened Sequences

  function Digits(n: nat): string {
    if n < 10 then [Digit(n)] else Digits(n / 10) + [Digit(n % 10)]
  }

  function Digit(d: nat): char
    requires d < 10
  {
    '0' + d as char
  }

  /** Try k of the search: the candidate itself, then suffixes from 2 on. */
  function Attempt(candidate: string, k: nat): string {
    if k == 0 then candidate else candidate + "_" + Digits(k + 1)
  }

  lemma {:induction false} DigitsInjective(m: nat, n: nat)
    requires Digits(m) == Digits(n)
    ensures m == n
  {
    assert |Digits(m)| == |Digits(n)|;
    DigitsNonempty(m / 10);
    DigitsNonempty(n / 10);
    if m >= 10 && n >= 10 {
      var a, b := Digits(m / 10), Digits(n / 10);
      assert (a + [Digit(m % 10)])[..|a|] == a && (b + [Digit(n % 10)])[..|b|] == b;
      assert (a + [Digit(m % 10)])[|a|] == Digit(m % 10) && (b + [Digit(n % 10)])[|b|] == Digit(n % 10);
      DigitsInjective(m / 10, n / 10);
    } else if m < 10 && n < 10 {
      assert Digits(m)[0] == Digit(m) && Digits(n)[0] == Digit(n);
    }
  }

  lemma DigitsNonempty(n: nat)
    ensures |Digits(n)| >= 1
  {
  }

  lemma AttemptsDiffer(candidate: string, j: nat, k: nat)
    requires j < k
    ensures Attempt(candidate, j) != Attempt(candidate, k)
  {
    DigitsNonempty(k + 1);
    if j > 0 && Attempt(candidate, j) == Attempt(candidate, k) {
      var head := candidate + "_";
      assert (head + Digits(j + 1))[|head|..] == Digits(j + 1);
      assert (head + Digits(k + 1))[|head|..] == Digits(k + 1);
      DigitsInjective(j + 1, k + 1);
    }
  }

  /** The number a string of digits stands for. */
  function DecimalValue(s: string): int {
    if s == "" then 0 else DecimalValue(s[..|s| - 1]) * 10 + (s[|s| - 1] as int - '0' as int)
  }

  lemma {:induction false} DigitsAreDecimal(n: nat)
    ensures DecimalValue(Digits(n)) == n && Digits(n) != ""
    ensures n > 0 ==> Digits(n)[0] != '0'
    ensures forall i | 0 <= i < |Digits(n)| :: '0' <= Digits(n)[i] <= '9'
  {
    if n >= 10 {
      DigitsAreDecimal(n / 10);
      assert Digits(n)[..|Digits(n)| - 1] == Digits(n / 10);
    } else {
      assert Digits(n)[..0] == "";
    }
  }

  /** The first suffix is "_2"; every later try is the candidate, an underscore and the number of the try. */
  lemma AttemptNames(candidate: string, k: nat)
    ensures Attempt(candidate, 0) == candidate && Attempt(candidate, 1) == candidate + "_2"
    ensures k > 0 ==> exists digits ::
      Attempt(candidate, k) == candidate + "_" + digits && DecimalValue(digits) == k + 1
  {
    DigitsAreDecimal(k + 1);
    assert Digits(2) == "2";
  }

  /** The first n tries, which are n different names. */
  function Attempts(candidate: string, n: nat): set<string> {
    set k: nat | k < n :: Attempt(candidate, k)
  }

  lemma {:induction false} AttemptsCount(candidate: string, n: nat)
    ensures |Attempts(candidate, n)| == n
  {
    if n > 0 {
      AttemptsCount(candidate, n - 1);
      forall k: nat | k < n - 1 ensures Attempt(candidate, k) != Attempt(candidate, n - 1) {
        AttemptsDiffer(candidate, k, n - 1);
      }
      assert Attempts(candidate, n) == Attempts(candidate, n - 1) + {Attempt(candidate, n - 1)};
    }
  }

  /** Tries that were all taken cannot outnumber the taken names. */
  lemma TakenTriesBounded(candidate: string, used: set<string>, n: nat)
    requires Attempts(candidate, n) <= used
    ensures n <= |used|
  {
    AttemptsCount(candidate, n);
    SubsetCardinality(Attempts(candidate, n), used);
  }

  class Names {
    var used: set<string>

    constructor ()
      ensures used == {}
    {
      used := {};
    }

    /** Takes the first free try, within one more try than there are taken names. */
    method UniqueCapabilityName(candidate: string) returns (value: string, ghost tries: nat)
      modifies this
      ensures value !in old(used) && used == old(used) + {value}
      ensures 1 <= tries <= |old(used)| + 1 && value == Attempt(candidate, tries - 1)
      ensures forall k: nat | k < tries - 1 :: Attempt(candidate, k) in old(used)
    {
      value := candidate;
      var suffix := 2;
      tries := 1;
      while value in used
        invariant used == old(used)
        invariant suffix == tries + 1 && tries >= 1
        invariant value == Attempt(candidate, tries - 1)
        invariant Attempts(candidate, tries - 1) <= used
        invariant tries - 1 <= |used|
        decreases |used| + 1 - tries
      {
        assert Attempts(candidate, tries) == Attempts(candidate, tries - 1) + {value};
        TakenTriesBounded(candidate, used, tries);
        value := candidate + "_" + Digits(suffix);
        suffix := suffix + 1;
        tries := tries + 1;
      }
      used := used + {value};
    }
  }

  ghost predicate Distinct(names: seq<string>) {
    forall i, j | 0 <= i < j < |names| :: names[i] != names[j]
  }

  /** The names given so far, with the taken set in step. */
  ghost predicate Named(candidates: seq<string>, names: seq<string>, used: set<string>) {
    && |names| <= |candidates| && Distinct(names)
    && (forall n :: n in names <==> n in used)
    && |used| == |names|
    && forall i | 0 <= i < |names| :: WithinTries(candidates[i], names[i], i)
  }

  /** The name is the candidate, or one of its first `most` suffixed forms. */
  ghost predicate WithinTries(candidate: string, name: string, most: nat) {
    exists k: nat :: k <= most && name == Attempt(candidate, k)
  }

  lemma OneMoreDistinct(names: seq<string>, name: string)
    requires Distinct(names) && name !in names
    ensures Distinct(names + [name])
  {
    forall i | 0 <= i < |names| ensures names[i] != name {
      assert names[i] in names;
    }
  }

  lemma OneMoreNamed(candidates: seq<string>, names: seq<string>, used: set<string>, name: string)
    requires Named(candidates, names, used) && |names| < |candidates| && name !in used
    requires WithinTries(candidates[|names|], name, |names|)
    ensures Named(candidates, names + [name], used + {name})
  {
    OneMoreDistinct(names, name);
  }

  /** Names every tool of a bundle, in order; no two tools share a name. */
  method NameTools(candidates: seq<string>) returns (names: seq<string>)
    ensures |names| == |candidates|
    ensures Distinct(names)
    ensures forall i | 0 <= i < |names| :: WithinTries(candidates[i], names[i], i)
  {
    names := [];
    var used := new Names();
    for i := 0 to |candidates|
      invariant |names| == i && Named(candidates, names, used.used)
      invariant fresh(used)
    {
      ghost var taken := used.used;
      var name, tries := used.UniqueCapabilityName(candidates[i]);
      assert WithinTries(candidates[i], name, i);
      OneMoreNamed(candidates, names, taken, name);
      names := names + [name];
    }
  }
}
