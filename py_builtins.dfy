/**
 * The few Python built-ins the modelled code leans on: `None`, truthiness of
 * an optional string, `str.lower()` as far as ASCII keywords can tell,
 * the substring test `sub in s`, and list indexing with negative indices.
 */
module PyBuiltins {

  /** A value or Python's `None`. */
  datatype Option<T> = None | Some(value: T)

  /** Python truthiness of an optional string: present and non-empty. */
  predicate Truthy(o: Option<string>)
  {
    o.Some? && o.value != ""
  }

  /** U+212A KELVIN SIGN, the one non-ASCII letter `str.lower()` maps onto an ASCII letter on its own. */
  const KelvinSign: char := '\U{212A}'

  predicate IsAsciiUpper(c: char)
  {
    'A' <= c <= 'Z'
  }

  function LowerChar(c: char): char
  {
    if IsAsciiUpper(c) then (c as int - 'A' as int + 'a' as int) as char
    else if c == KelvinSign then 'k'
    else c
  }

  /** `str.lower()`, exact on every character that can lower-case into an ASCII letter on its own. */
  function Lower(s: string): (r: string)
    ensures |r| == |s|
    ensures forall i :: 0 <= i < |r| ==> !IsAsciiUpper(r[i]) && r[i] != KelvinSign
    ensures forall i :: 0 <= i < |s| && !IsAsciiUpper(s[i]) && s[i] != KelvinSign ==> r[i] == s[i]
  {
    seq(|s|, i requires 0 <= i < |s| => LowerChar(s[i]))
  }

  /** Python's substring test `sub in s`, by recursion on `s`. */
  predicate Contains(s: string, sub: string)
  {
    sub <= s || (s != [] && Contains(s[1..], sub))
  }

  /** `sub in s` holds exactly when `sub` occurs in `s` at some index. */
  lemma {:induction false} ContainsOccurs(s: string, sub: string)
    ensures Contains(s, sub) <==> exists i :: 0 <= i <= |s| && sub <= s[i..]
  {
    if s == [] {
      assert s[0..] == s;
    } else {
      ContainsOccurs(s[1..], sub);
      if Contains(s, sub) && !(sub <= s) {
        var i :| 0 <= i <= |s[1..]| && sub <= s[1..][i..];
        assert s[1..][i..] == s[i + 1..];
      }
      if exists i :: 0 <= i <= |s| && sub <= s[i..] {
        var i :| 0 <= i <= |s| && sub <= s[i..];
        if i > 0 {
          assert s[1..][i - 1..] == s[i..];
        }
      }
    }
  }

  /** `ContainsOccurs` for every `sub` at once. */
  lemma ContainsOccursForAll(s: string)
    ensures forall sub :: Contains(s, sub) <==> exists i :: 0 <= i <= |s| && sub <= s[i..]
  {
    forall sub {
      ContainsOccurs(s, sub);
    }
  }

  /** Python list indexing `s[i]`: negative indices count from the end; None is the `IndexError`. */
  function PyIndex<T>(s: seq<T>, i: int): (r: Option<T>)
    ensures 0 <= i < |s| ==> r == Some(s[i])
    ensures -|s| <= i < 0 ==> r == Some(s[|s| + i])
    ensures r.None? <==> i < -|s| || |s| <= i
  {
    if 0 <= i < |s| then Some(s[i])
    else if -|s| <= i < 0 then Some(s[|s| + i])
    else None
  }
}
