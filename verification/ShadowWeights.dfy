/** Renaming a shadowed layer's checkpoint weights to the shadow module's names. */
module ShadowWeights {

  function Digit(d: nat): char
    requires d < 10
  {
    "0123456789"[d]
  }

  function Decimal(n: nat): (s: string)
    ensures |s| > 0
  {
    if n < 10 then [Digit(n)] else Decimal(n / 10) + [Digit(n % 10)]
  }

  /** Decimals of different numbers differ, and contain no dot. */
  lemma {:induction false} DecimalInjective(a: nat, b: nat)
    requires Decimal(a) == Decimal(b)
    ensures a == b
    decreases a
  {
    var s := Decimal(a);
    assert s[|s| - 1] == Digit(a % 10) && s[|s| - 1] == Digit(b % 10);
    DigitInjective(a % 10, b % 10);
    if a >= 10 && b >= 10 {
      assert s[..|s| - 1] == Decimal(a / 10) && s[..|s| - 1] == Decimal(b / 10);
      DecimalInjective(a / 10, b / 10);
    }
  }

  lemma DigitInjective(d: nat, e: nat)
    requires d < 10 && e < 10 && Digit(d) == Digit(e)
    ensures d == e
  {
  }

  lemma {:induction false} DecimalHasNoDot(n: nat)
    ensures '.' !in Decimal(n)
  {
    if n >= 10 { DecimalHasNoDot(n / 10); }
  }

  function Prefix(s: nat): string { "layers." + Decimal(s) + ".attn." }

  function Target(s: nat): string { "shadow_sources." + Decimal(s) + ".attn." }

  /** The loop over the shadow ids: the first prefix that matches wins. */
  function Remap(name: string, ids: seq<nat>): string {
    if |ids| == 0 then name
    else if Prefix(ids[0]) <= name then Target(ids[0]) + name[|Prefix(ids[0])|..]
    else Remap(name, ids[1..])
  }

  /** A name belongs to at most one layer. */
  lemma PrefixUnique(name: string, s: nat, t: nat)
    requires Prefix(s) <= name && Prefix(t) <= name
    ensures s == t
  {
    NotShorter(name, s, t);
    NotShorter(name, t, s);
    Inside(name, s);
    Inside(name, t);
    DecimalInjective(s, t);
  }

  lemma Inside(name: string, s: nat)
    requires Prefix(s) <= name
    ensures name[7..7 + |Decimal(s)|] == Decimal(s) && name[7 + |Decimal(s)|] == '.'
  {
    var p := Prefix(s);
    assert p[7..7 + |Decimal(s)|] == Decimal(s) && p[7 + |Decimal(s)|] == '.';
    assert p == name[..|p|];
  }

  /** If one number were shorter, the dot after it would be a digit of the other. */
  lemma NotShorter(name: string, s: nat, t: nat)
    requires Prefix(s) <= name && Prefix(t) <= name
    ensures |Decimal(s)| >= |Decimal(t)|
  {
    Inside(name, s);
    Inside(name, t);
    DecimalHasNoDot(t);
    var mine, k := name[7..7 + |Decimal(t)|], |Decimal(s)|;
    assert forall i :: 0 <= i < |mine| ==> mine[i] == name[7 + i] && mine[i] in mine;
  }

  /** A digit's value, and the number a decimal string spells. */
  function Spelled(s: string): int {
    if |s| == 0 then 0 else 10 * Spelled(s[..|s| - 1]) + (s[|s| - 1] as int - '0' as int)
  }

  lemma {:induction false} DecimalExact(n: nat)
    ensures Spelled(Decimal(n)) == n && forall c :: c in Decimal(n) ==> '0' <= c <= '9'
  {
    if n >= 10 {
      DecimalExact(n / 10);
      assert Decimal(n)[..|Decimal(n)| - 1] == Decimal(n / 10);
    } else {
      assert Decimal(n)[..0] == [];
    }
  }

  /** A shadowed layer's attention weight goes to its shadow, whatever the order of the ids; all other names stay. */
  lemma {:induction false} RemapExact(name: string, ids: seq<nat>)
    ensures forall s :: s in ids ==>
              var prefix := "layers." + Decimal(s) + ".attn.";
              prefix <= name ==> Remap(name, ids) == "shadow_sources." + Decimal(s) + ".attn." + name[|prefix|..]
    ensures (forall s :: s in ids ==> !("layers." + Decimal(s) + ".attn." <= name)) ==> Remap(name, ids) == name
  {
    if |ids| > 0 {
      RemapExact(name, ids[1..]);
      assert ids == [ids[0]] + ids[1..];
      forall s | s in ids && Prefix(s) <= name
        ensures Remap(name, ids) == Target(s) + name[|Prefix(s)|..]
      {
        if Prefix(ids[0]) <= name { PrefixUnique(name, s, ids[0]); }
      }
    }
  }
}
