/**
 The loop of `googleLogin` in threads-be/src/modules/auth/auth.service.ts:498-505: try `base`, `base1`,
 `base2`, ... until a name is free.
 */
module Usernames {

  const DIGITS := "0123456789"

  /** The decimal text of a number. */
  function Decimal(n: nat): (s: string)
    ensures s != ""
  {
    if n < 10 then [DIGITS[n]] else Decimal(n / 10) + [DIGITS[n % 10]]
  }

  /** What a text of digits says, read from the left. */
  function Value(s: string): int {
    if s == "" then 0 else 10 * Value(s[..|s| - 1]) + (s[|s| - 1] as int - '0' as int)
  }

  /** The text consists of digits, has no leading zero, and reads as the number. */
  lemma {:induction false} DecimalReads(n: nat)
    ensures Value(Decimal(n)) == n
    ensures forall c :: c in Decimal(n) ==> '0' <= c <= '9'
    ensures n > 0 ==> Decimal(n)[0] != '0'
  {
    if n < 10 {
      assert Decimal(n)[..0] == "";
    } else {
      var init := Decimal(n / 10);
      DecimalReads(n / 10);
      assert (init + [DIGITS[n % 10]])[..|init|] == init;
    }
  }

  lemma {:induction false} DecimalInjective(a: nat, b: nat)
    requires Decimal(a) == Decimal(b)
    ensures a == b
  {
    if a < 10 {
    } else {
      var p, q := Decimal(a / 10), Decimal(b / 10);
      assert p == (p + [DIGITS[a % 10]])[..|p|] && q == (q + [DIGITS[b % 10]])[..|q|];
      assert |p| == |q|;
      DecimalInjective(a / 10, b / 10);
      assert (p + [DIGITS[a % 10]])[|p|] == (q + [DIGITS[b % 10]])[|q|];
    }
  }

  /** The k-th name tried. */
  function Name(base: string, k: nat): string {
    if k == 0 then base else base + Decimal(k)
  }

  lemma NamesDiffer(base: string, i: nat, j: nat)
    requires Name(base, i) == Name(base, j)
    ensures i == j
  {
    assert forall k: nat :: k > 0 ==> |Name(base, k)| > |base|;
    if i > 0 && j > 0 {
      assert Decimal(i) == Name(base, i)[|base|..] == Name(base, j)[|base|..] == Decimal(j);
      DecimalInjective(i, j);
    }
  }

  function Tried(base: string, k: nat): set<string> {
    if k == 0 then {} else Tried(base, k - 1) + {Name(base, k - 1)}
  }

  lemma {:induction false} TriedMembers(base: string, k: nat, x: string)
    ensures x in Tried(base, k) <==> exists i: nat :: i < k && x == Name(base, i)
  {
    if k > 0 {
      TriedMembers(base, k - 1, x);
      assert (exists i: nat :: i < k && x == Name(base, i))
        <==> (exists i: nat :: i < k - 1 && x == Name(base, i)) || x == Name(base, k - 1);
    }
  }

  /** The first k names are k different names. */
  lemma {:induction false} TriedSize(base: string, k: nat)
    ensures |Tried(base, k)| == k
  {
    if k > 0 {
      TriedSize(base, k - 1);
      if Name(base, k - 1) in Tried(base, k - 1) {
        TriedMembers(base, k - 1, Name(base, k - 1));
        var i: nat :| i < k - 1 && Name(base, k - 1) == Name(base, i);
        NamesDiffer(base, k - 1, i);
        assert false;
      }
    }
  }

  /** Pigeonhole: k names that are all taken are at most as many as the taken ones. */
  lemma TriedAtMostTaken(base: string, k: nat, taken: set<string>)
    requires Tried(base, k) <= taken
    ensures k <= |taken|
  {
    TriedSize(base, k);
    assert taken == Tried(base, k) + (taken - Tried(base, k));
  }

  /** One more probe that hits a taken name; the next text built is the next name. */
  lemma TriedNext(base: string, k: nat, taken: set<string>)
    requires Tried(base, k) <= taken && Name(base, k) in taken
    ensures Tried(base, k + 1) <= taken && k + 1 <= |taken|
    ensures base + Decimal(k + 1) == Name(base, k + 1)
  {
    TriedAtMostTaken(base, k + 1, taken);
  }

  lemma TriedAreTaken(base: string, k: nat, taken: set<string>)
    requires Tried(base, k) <= taken
    ensures forall i: nat :: i < k ==> Name(base, i) in taken
  {
    forall i: nat | i < k
      ensures Name(base, i) in taken
    {
      TriedMembers(base, k, Name(base, i));
    }
  }

  /**
   For every finite set of taken names the loop ends, after at most one probe more than there are taken
   names, with the first free name of the sequence.
   */
  method AllocateUsername(baseUsername: string, taken: set<string>) returns (username: string, probes: nat)
    ensures 1 <= probes <= |taken| + 1
    ensures username == Name(baseUsername, probes - 1) && username !in taken
    ensures forall i: nat :: i < probes - 1 ==> Name(baseUsername, i) in taken
  {
    username := baseUsername;
    var counter := 1;
    while username in taken
      invariant counter >= 1 && username == Name(baseUsername, counter - 1)
      invariant Tried(baseUsername, counter - 1) <= taken && counter - 1 <= |taken|
      decreases |taken| + 1 - counter
    {
      TriedNext(baseUsername, counter - 1, taken);
      username := baseUsername + Decimal(counter);
      counter := counter + 1;
    }
    probes := counter;
    TriedAreTaken(baseUsername, probes - 1, taken);
  }

  /** The bound is reached: with `base` and the first names all taken, every probe but the last one hits. */
  lemma BoundIsReached(base: string, k: nat)
    ensures |Tried(base, k)| == k && (forall i: nat :: i < k ==> Name(base, i) in Tried(base, k))
    ensures Name(base, k) !in Tried(base, k)
  {
    TriedSize(base, k);
    forall i: nat
      ensures i < k <==> Name(base, i) in Tried(base, k)
    {
      TriedMembers(base, k, Name(base, i));
      if Name(base, i) in Tried(base, k) {
        var j: nat :| j < k && Name(base, i) == Name(base, j);
        NamesDiffer(base, i, j);
      }
    }
  }
}
