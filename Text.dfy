/** The string primitives the views use: `toLowerCase`, `includes` and `padStart`. */
module Text {

  /** Lower-cases one character; only the ASCII letters A-Z are mapped. */
  function LowerChar(c: char): char
  {
    if 'A' <= c <= 'Z' then (c as int + 32) as char else c
  }

  /** `String.prototype.toLowerCase`, restricted to ASCII letters. */
  function ToLower(s: string): (r: string)
    ensures |r| == |s|
    ensures forall i :: 0 <= i < |s| ==> r[i] == LowerChar(s[i])
  {
    if s == [] then [] else [LowerChar(s[0])] + ToLower(s[1..])
  }

  /** Lower-casing a lower-cased string changes nothing. */
  lemma ToLowerIdempotent(s: string)
    ensures ToLower(ToLower(s)) == ToLower(s)
  {
  }

  /** `s` has `q` as a contiguous substring at position `i`. */
  ghost predicate OccursAt(s: string, q: string, i: int)
  {
    0 <= i && i + |q| <= |s| && s[i..i + |q|] == q
  }

  /** `String.prototype.includes`: scan `s` left to right for a position where
      `q` is a prefix of the rest. */
  function Includes(s: string, q: string): bool
    decreases |s|
  {
    if |q| > |s| then false
    else if q <= s then true
    else Includes(s[1..], q)
  }

  /** `Includes` finds exactly the substrings: it answers true iff `q` occurs
      somewhere in `s`. */
  lemma IncludesIff(s: string, q: string)
    ensures Includes(s, q) <==> exists i :: OccursAt(s, q, i)
  {
    if Includes(s, q) {
      var i := IncludesWitness(s, q);
    }
    if exists i :: OccursAt(s, q, i) {
      var i :| OccursAt(s, q, i);
      IncludesFinds(s, q, i);
    }
  }

  /** When `Includes` answers true, it has passed a position where `q` occurs. */
  lemma {:induction false} IncludesWitness(s: string, q: string) returns (i: nat)
    requires Includes(s, q)
    ensures OccursAt(s, q, i)
    decreases |s|
  {
    if q <= s {
      assert s[0..|q|] == q;
      i := 0;
    } else {
      var j := IncludesWitness(s[1..], q);
      assert s[1..][j..j + |q|] == s[j + 1..j + 1 + |q|];
      i := j + 1;
    }
  }

  /** Wherever `q` occurs, `Includes` finds it. */
  lemma {:induction false} IncludesFinds(s: string, q: string, i: nat)
    requires OccursAt(s, q, i)
    ensures Includes(s, q)
    decreases i
  {
    if !(q <= s) {
      assert i != 0;
      assert s[1..][i - 1..i - 1 + |q|] == s[i..i + |q|];
      IncludesFinds(s[1..], q, i - 1);
    }
  }

  /** The empty string is included in every string. */
  lemma IncludesEmpty(s: string)
    ensures Includes(s, "")
  {
  }

  /** `String.prototype.padStart(target, fill)` with a one-character fill.
      The result is `max(target, |s|)` long, ends with `s`, and everything in
      front of `s` is the fill character; a string already `target` long is
      returned unchanged. */
  function PadStart(s: string, target: nat, fill: char): (r: string)
    ensures |r| == if |s| >= target then |s| else target
    ensures r[|r| - |s|..] == s
    ensures forall i :: 0 <= i < |r| - |s| ==> r[i] == fill
    ensures |s| >= target ==> r == s
  {
    if |s| >= target then s else seq(target - |s|, _ => fill) + s
  }
}
