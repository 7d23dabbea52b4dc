/**
 * Text helpers of the two catalogue pages (educational resources and
 * technologies): lower-casing, substring search, and the colour-class
 * lookup with its gray fallback.
 */
module Catalogue {

  /**
   * `toLowerCase` on one character, for the letters the catalogues use:
   * A-Z and the Latin-1 capitals (U+00C0 to U+00DE, except the sign U+00D7).
   */
  function LowerChar(c: char): (d: char)
    ensures IsUpper(c) ==> d as int == c as int + 32 && !IsUpper(d)
    ensures !IsUpper(c) ==> d == c
  {
    if IsUpper(c) then (c as int + 32) as char else c
  }

  predicate IsUpper(c: char)
  {
    ('A' <= c <= 'Z') || ('\U{00C0}' <= c <= '\U{00DE}' && c != '\U{00D7}')
  }

  /** `s.toLowerCase()`, character by character. */
  function ToLower(s: string): (r: string)
    ensures |r| == |s|
    ensures forall i :: 0 <= i < |r| ==> r[i] == LowerChar(s[i])
  {
    if s == [] then [] else [LowerChar(s[0])] + ToLower(s[1..])
  }

  /** Lower-casing twice is lower-casing once. */
  lemma ToLowerIdempotent(s: string)
    ensures ToLower(ToLower(s)) == ToLower(s)
  {
    var r := ToLower(s);
    var rr := ToLower(r);
    forall i | 0 <= i < |s| ensures rr[i] == r[i] {
      assert !IsUpper(r[i]);
    }
  }

  /** `t` is an initial part of `s`. */
  predicate IsPrefix(t: string, s: string)
  {
    |t| <= |s| && s[..|t|] == t
  }

  /** `s.includes(t)`: `t` starts at some position of `s`. */
  predicate Contains(s: string, t: string)
    decreases |s|
  {
    IsPrefix(t, s) || (s != [] && Contains(s[1..], t))
  }

  /** Every string contains the empty string and itself. */
  lemma ContainsEmptyAndSelf(s: string)
    ensures Contains(s, "") && Contains(s, s)
  {
  }

  /** `t` occurs in `s` exactly when it starts at some index of `s`. */
  lemma {:induction false} ContainsAt(s: string, t: string)
    ensures Contains(s, t) <==> exists i :: 0 <= i <= |s| && IsPrefix(t, s[i..])
  {
    assert s[0..] == s;
    if s != [] {
      ContainsAt(s[1..], t);
      if Contains(s[1..], t) {
        var i :| 0 <= i <= |s[1..]| && IsPrefix(t, s[1..][i..]);
        assert s[1..][i..] == s[i + 1..];
      }
      if exists i :: 0 <= i <= |s| && IsPrefix(t, s[i..]) {
        var i :| 0 <= i <= |s| && IsPrefix(t, s[i..]);
        if i > 0 {
          assert s[1..][i - 1..] == s[i..];
        }
      }
    }
  }

  /** What a string contains is no longer than it. */
  lemma {:induction false} ContainsShorter(s: string, t: string)
    requires Contains(s, t)
    ensures |t| <= |s|
  {
    if !IsPrefix(t, s) {
      ContainsShorter(s[1..], t);
    }
  }

  /** The gray classes a colour without an entry gets. */
  const GrayClasses: string := "bg-gray-50 border-gray-200 text-gray-800"

  /** `colorMap[color] || gray`. */
  function ClassesFor(colorMap: map<string, string>, color: string): (classes: string)
    ensures color in colorMap && colorMap[color] != "" ==> classes == colorMap[color]
    ensures color !in colorMap || colorMap[color] == "" ==> classes == GrayClasses
  {
    if color in colorMap && colorMap[color] != "" then colorMap[color] else GrayClasses
  }

  /** The classes Tailwind builds for a colour name. */
  function TailwindClasses(color: string): string
  {
    "bg-" + color + "-50 border-" + color + "-200 text-" + color + "-800"
  }
}
