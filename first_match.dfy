/**
 * An ordered table of guards read top to bottom, the first guard that holds
 * deciding the outcome. The storefront writes such tables as `if / else if`
 * chains over `includes` and `startsWith`; this module is the declarative
 * reading of those chains, against which each chain is proved equal.
 */
module FirstMatch {
  import opened JsString

  /** One condition of a rule chain, over an already lower-cased command. */
  datatype Guard =
    | AnyOf(phrases: seq<string>)                       // cmd.includes(p1) || cmd.includes(p2) || ...
    | Prefix(prefix: string)                            // cmd.startsWith(prefix)
    | PrefixAndAnyOf(prefix: string, phrases: seq<string>) // both of the above

  /** `cmd.includes(p1) || cmd.includes(p2) || ...`, evaluated left to right. */
  predicate IncludesAny(cmd: string, phrases: seq<string>) {
    phrases != [] && (Contains(cmd, phrases[0]) || IncludesAny(cmd, phrases[1..]))
  }

  lemma IncludesOne(cmd: string, a: string)
    ensures IncludesAny(cmd, [a]) <==> Contains(cmd, a)
  {
    assert [a][1..] == [];
  }

  lemma IncludesTwo(cmd: string, a: string, b: string)
    ensures IncludesAny(cmd, [a, b]) <==> Contains(cmd, a) || Contains(cmd, b)
  {
    assert [a, b][1..] == [b];
    IncludesOne(cmd, b);
  }

  lemma IncludesFour(cmd: string, a: string, b: string, c: string, d: string)
    ensures IncludesAny(cmd, [a, b, c, d]) <==>
      Contains(cmd, a) || Contains(cmd, b) || Contains(cmd, c) || Contains(cmd, d)
  {
    assert [a, b, c, d][1..] == [b, c, d];
    assert [b, c, d][1..] == [c, d];
    IncludesTwo(cmd, c, d);
  }

  predicate Holds(g: Guard, cmd: string) {
    match g
    case AnyOf(ps) => IncludesAny(cmd, ps)
    case Prefix(p) => StartsWith(cmd, p)
    case PrefixAndAnyOf(p, ps) => StartsWith(cmd, p) && IncludesAny(cmd, ps)
  }

  /** The index of the rule that fires: the first guard that holds, or `|guards|`
      (the final `else`) when none does. */
  function FirstFiring(guards: seq<Guard>, cmd: string): (k: nat)
    ensures k <= |guards|
    ensures k < |guards| ==> Holds(guards[k], cmd)
    ensures forall j :: 0 <= j < k ==> !Holds(guards[j], cmd)
  {
    if |guards| == 0 then 0
    else if Holds(guards[0], cmd) then 0
    else 1 + FirstFiring(guards[1..], cmd)
  }

  /** First-match-wins determines the rule: any index that holds with no earlier
      guard holding, or the `else` with no guard holding, is the one `FirstFiring` picks. */
  lemma FirstFiringUnique(guards: seq<Guard>, cmd: string, k: nat)
    requires k <= |guards|
    requires k < |guards| ==> Holds(guards[k], cmd)
    requires forall j :: 0 <= j < k ==> !Holds(guards[j], cmd)
    ensures FirstFiring(guards, cmd) == k
  {
  }
}
