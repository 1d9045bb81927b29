/** The identifiers the in-memory repository gives its entities. */
module Identifiers {

  function DigitChar(n: nat): char
    requires n < 36
  {
    if n < 10 then ('0' as int + n) as char else ('a' as int + (n - 10)) as char
  }

  /** `toString(36)`. */
  function Base36(n: nat): string {
    if n < 36 then [DigitChar(n)] else Base36(n / 36) + [DigitChar(n % 36)]
  }

  function ValueOf(s: string): nat {
    if s == [] then 0 else ValueOf(s[..|s| - 1]) * 36 + Digit(s[|s| - 1])
  }

  function Digit(c: char): nat {
    if '0' <= c <= '9' then c as int - '0' as int
    else if 'a' <= c <= 'z' then c as int - 'a' as int + 10
    else 0
  }

  lemma DigitOf(n: nat)
    requires n < 36
    ensures Digit(DigitChar(n)) == n && DigitChar(n) != '_'
  {
  }

  /** Reading a numeral back gives the number, and a numeral holds no underscore. */
  lemma {:induction false} Base36RoundTrip(n: nat)
    ensures ValueOf(Base36(n)) == n
    ensures '_' !in Base36(n)
  {
    hide Digit, DigitChar;
    DigitOf(n % 36);
    if n < 36 {
      assert Base36(n)[..|Base36(n)| - 1] == [];
    } else {
      Base36RoundTrip(n / 36);
      assert Base36(n)[..|Base36(n)| - 1] == Base36(n / 36);
    }
  }

  function IdOf(prefix: string, millis: nat, count: nat): string {
    prefix + "_" + Base36(millis) + "_" + Base36(count)
  }

  /** What follows the last underscore. */
  function LastPart(s: string): string {
    if s == [] || s[|s| - 1] == '_' then [] else LastPart(s[..|s| - 1]) + [s[|s| - 1]]
  }

  lemma {:induction false} LastPartIs(x: string, a: string)
    requires '_' !in a
    ensures LastPart(x + "_" + a) == a
  {
    var s := x + "_" + a;
    if a == [] {
      assert s == x + "_";
    } else {
      var front := a[..|a| - 1];
      assert s[..|s| - 1] == x + "_" + front;
      LastPartIs(x, front);
    }
  }

  /** The counter alone tells identifiers apart, whatever the entity prefix and the clock say. */
  lemma IdsDiffer(p1: string, t1: nat, n1: nat, p2: string, t2: nat, n2: nat)
    requires n1 != n2
    ensures IdOf(p1, t1, n1) != IdOf(p2, t2, n2)
  {
    Base36RoundTrip(n1);
    Base36RoundTrip(n2);
    LastPartIs(p1 + "_" + Base36(t1), Base36(n1));
    LastPartIs(p2 + "_" + Base36(t2), Base36(n2));
  }

  /** An identifier comes apart, from the right, into the count, the clock reading and the prefix. */
  lemma IdReadsBack(prefix: string, millis: nat, count: nat)
    ensures var id := IdOf(prefix, millis, count);
            var last := LastPart(id);
            && ValueOf(last) == count && |last| < |id|
            && var rest := id[..|id| - |last| - 1];
               && ValueOf(LastPart(rest)) == millis && rest == prefix + "_" + LastPart(rest)
  {
    hide Base36, ValueOf, LastPart;
    Base36RoundTrip(count);
    Base36RoundTrip(millis);
    LastPartIs(prefix + "_" + Base36(millis), Base36(count));
    LastPartIs(prefix, Base36(millis));
    var id := IdOf(prefix, millis, count);
    assert id[..|id| - |Base36(count)| - 1] == prefix + "_" + Base36(millis);
  }

  /** The module counter. */
  class IdGenerator {
    var count: nat

    constructor ()
      ensures count == 0
    {
      count := 0;
    }

    method GenerateId(prefix: string, millis: nat) returns (id: string)
      modifies this
      ensures count == old(count) + 1 && id == IdOf(prefix, millis, count)
      ensures forall p: string, t: nat, n: nat :: n <= old(count) ==> id != IdOf(p, t, n)
    {
      count := count + 1;
      id := IdOf(prefix, millis, count);
      forall p: string, t: nat, n: nat | n <= old(count)
        ensures id != IdOf(p, t, n)
      {
        IdsDiffer(prefix, millis, count, p, t, n);
      }
    }
  }
}
