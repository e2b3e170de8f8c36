/** Searching and cutting strings as `std::string` does. */
module Cadeias {
  import opened Wrappers

  /** `std::string::find(c)`: the first index of `c` in `s`, `None` for
      `npos`. */
  function Encontrar(s: string, c: char): (r: Option<nat>)
    ensures r.Some? ==> r.value < |s| && s[r.value] == c && c !in s[..r.value]
    ensures r.None? <==> c !in s
  {
    if |s| == 0 then None
    else if s[0] == c then Some(0)
    else match Encontrar(s[1..], c)
      case None => None
      case Some(k) => Some(k + 1)
  }

  /** `Encontrar` returns the index that holds `c` with no `c` before it. */
  lemma {:induction false} PrimeiroIndiceUnico(s: string, c: char, a: nat)
    requires a < |s| && s[a] == c && c !in s[..a]
    ensures Encontrar(s, c) == Some(a)
    decreases a
  {
    if a > 0 {
      assert s[0] == s[..a][0];
      assert s[1..][..a - 1] == s[..a][1..];
      PrimeiroIndiceUnico(s[1..], c, a - 1);
    }
  }

  /** The two sides of a string cut around one separator. */
  lemma Fatias<X>(x: seq<X>, m: X, y: seq<X>)
    ensures (x + [m] + y)[..|x|] == x && (x + [m] + y)[|x| + 1..] == y
  {
  }

  /** Concatenation is associative. */
  lemma Associar<X>(a: seq<X>, b: seq<X>, c: seq<X>)
    ensures a + b + c == a + (b + c)
  {
  }
}
