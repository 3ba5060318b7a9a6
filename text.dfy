/**
 * The string operations the client relies on: `trim`, the `\s` / `\S` character classes,
 * `toLowerCase`, `includes`, `startsWith`, `replace` with a string pattern, `split(c)[0]`,
 * `localeCompare` and the email pattern `\S+@\S+\.\S+`.
 */
module Text {

  /** ECMAScript WhiteSpace and LineTerminator code points: what `trim` removes and `\s` matches. */
  predicate IsSpace(c: char) {
    var n := c as int;
    n == 0x09 || n == 0x0A || n == 0x0B || n == 0x0C || n == 0x0D || n == 0x20 || n == 0xA0
    || n == 0x1680 || (0x2000 <= n <= 0x200A) || n == 0x2028 || n == 0x2029 || n == 0x202F
    || n == 0x205F || n == 0x3000 || n == 0xFEFF
  }

  /** Every character is white space (the empty string included). */
  predicate IsBlank(s: string) {
    forall i :: 0 <= i < |s| ==> IsSpace(s[i])
  }

  /** The end of the run of white space that starts at `i`. */
  function SpaceRunFrom(s: string, i: nat): (k: nat)
    requires i <= |s|
    ensures i <= k <= |s|
    ensures forall j :: i <= j < k ==> IsSpace(s[j])
    ensures k < |s| ==> !IsSpace(s[k])
    decreases |s| - i
  {
    if i < |s| && IsSpace(s[i]) then SpaceRunFrom(s, i + 1) else i
  }

  /** The start of the run of white space that ends at `j`. */
  function SpaceRunTo(s: string, j: nat): (k: nat)
    requires j <= |s|
    ensures k <= j
    ensures forall m :: k <= m < j ==> IsSpace(s[m])
    ensures k > 0 ==> !IsSpace(s[k - 1])
  {
    if j > 0 && IsSpace(s[j - 1]) then SpaceRunTo(s, j - 1) else j
  }

  /** `s` with its leading white space removed: a suffix of `s`, only white space was dropped, and it starts with a non-space. */
  function TrimStart(s: string): (r: string)
    ensures |r| <= |s| && r == s[|s| - |r|..]
    ensures IsBlank(s[..|s| - |r|])
    ensures r != [] ==> !IsSpace(r[0])
  {
    var k := SpaceRunFrom(s, 0);
    assert forall j :: 0 <= j < k ==> s[..k][j] == s[j];
    s[k..]
  }

  /** `s` with its trailing white space removed: a prefix of `s`, only white space was dropped, and it ends with a non-space. */
  function TrimEnd(s: string): (r: string)
    ensures |r| <= |s| && r == s[..|r|]
    ensures IsBlank(s[|r|..])
    ensures r != [] ==> !IsSpace(r[|r| - 1])
  {
    var k := SpaceRunTo(s, |s|);
    assert forall m :: k <= m < |s| ==> s[k..][m - k] == s[m];
    s[..k]
  }

  /** JavaScript's `String.prototype.trim`. */
  function Trim(s: string): string {
    TrimEnd(TrimStart(s))
  }

  /** `!s.trim()` holds exactly for the strings made only of white space. */
  lemma {:induction false} TrimEmptyIffBlank(s: string)
    ensures Trim(s) == "" <==> IsBlank(s)
  {
    var a := TrimStart(s);
    var k := |s| - |a|;
    var b := TrimEnd(a);
    assert Trim(s) == b;
    if IsBlank(s) {
      assert SpaceRunFrom(s, 0) == |s|;
      assert a == [];
    } else {
      var i :| 0 <= i < |s| && !IsSpace(s[i]);
      assert SpaceRunFrom(s, 0) <= i;
      assert a[i - k] == s[i];
    }
  }

  /** `!s.trim()`: the test every form uses for a required text. */
  method BlankAfterTrim(s: string) returns (r: bool)
    ensures r <==> IsBlank(s)
  {
    TrimEmptyIffBlank(s);
    r := Trim(s) == "";
  }

  /** A string that does not start with white space loses nothing to `TrimStart`. */
  lemma TrimStartNoLead(t: string)
    requires t == [] || !IsSpace(t[0])
    ensures TrimStart(t) == t
  {
    assert SpaceRunFrom(t, 0) == 0;
  }

  /** A string that does not end with white space loses nothing to `TrimEnd`. */
  lemma TrimEndNoTrail(t: string)
    requires t == [] || !IsSpace(t[|t| - 1])
    ensures TrimEnd(t) == t
  {
    assert SpaceRunTo(t, |t|) == |t|;
  }

  /** Trimming twice is trimming once. */
  lemma TrimIdempotent(s: string)
    ensures Trim(Trim(s)) == Trim(s)
  {
    var a := TrimStart(s);
    var t := TrimEnd(a);
    assert Trim(s) == t;
    if t != [] {
      assert t[0] == a[0];
    }
    TrimStartNoLead(t);
    TrimEndNoTrail(t);
    assert Trim(t) == TrimEnd(TrimStart(t));
  }

  /** ASCII case folding (the part of `toLowerCase` this model keeps). */
  function LowerChar(c: char): char {
    if 'A' <= c <= 'Z' then (c as int + 32) as char else c
  }

  function Lower(s: string): (r: string)
    ensures |r| == |s|
  {
    seq(|s|, i requires 0 <= i < |s| => LowerChar(s[i]))
  }

  /** `s.includes(t)`: `t` occurs in `s` as a contiguous block. */
  predicate Occurs(s: string, t: string) {
    exists i :: 0 <= i <= |s| && t <= s[i..]
  }

  /** The executable search behind `s.includes(t)`. */
  function Contains(s: string, t: string): bool
    decreases |s|
  {
    t <= s || (s != [] && Contains(s[1..], t))
  }

  lemma {:induction false} ContainsIffOccurs(s: string, t: string)
    ensures Contains(s, t) <==> Occurs(s, t)
    decreases |s|
  {
    if t <= s {
      assert s[0..] == s;
    } else if s == [] {
      assert |t| > 0;
    } else {
      ContainsIffOccurs(s[1..], t);
      if Occurs(s[1..], t) {
        var i :| 0 <= i <= |s| - 1 && t <= s[1..][i..];
        assert s[i + 1..] == s[1..][i..];
      }
      if Occurs(s, t) {
        var i :| 0 <= i <= |s| && t <= s[i..];
        if i != 0 {
          assert s[1..][i - 1..] == s[i..];
        }
      }
    }
  }

  /** The empty query is contained in every string (so an empty search keeps every book). */
  lemma ContainsEmpty(s: string)
    ensures Contains(s, "")
  {
  }

  /**
   * `s.indexOf(pat)`: the first position at which `pat` occurs, or -1.
   */
  function IndexOf(s: string, pat: string): (r: int)
    ensures r == -1 || (0 <= r <= |s| && pat <= s[r..])
    ensures forall j :: 0 <= j <= |s| && (r < 0 || j < r) ==> !(pat <= s[j..])
    decreases |s|
  {
    if pat <= s then 0
    else if s == [] then -1
    else
      var k := IndexOf(s[1..], pat);
      assert forall j :: 1 <= j <= |s| ==> s[j..] == s[1..][j - 1..];
      assert s[0..] == s;
      if k < 0 then -1 else k + 1
  }

  /** `s.replace(pat, rep)` with a string pattern: only the first occurrence is replaced. */
  function ReplaceFirst(s: string, pat: string, rep: string): string {
    var i := IndexOf(s, pat);
    if i < 0 then s else s[..i] + rep + s[i + |pat|..]
  }

  /** When `s` starts with `pat`, removing the first occurrence removes exactly that prefix. */
  lemma ReplacePrefix(s: string, pat: string)
    requires pat <= s
    ensures ReplaceFirst(s, pat, "") == s[|pat|..]
  {
  }

  /** `s.split(c)[0]`: the text before the first `c` (all of `s` when there is none). */
  function BeforeFirst(s: string, c: char): (r: string)
    ensures r <= s && c !in r
    ensures |r| < |s| ==> s[|r|] == c
  {
    if s == [] || s[0] == c then [] else [s[0]] + BeforeFirst(s[1..], c)
  }

  /** Code-point lexicographic order: the stand-in for `a.localeCompare(b) <= 0`. */
  predicate LexLe(a: string, b: string) {
    if a == [] then true
    else if b == [] then false
    else if a[0] != b[0] then a[0] < b[0]
    else LexLe(a[1..], b[1..])
  }

  lemma {:induction false} LexLeTotal(a: string, b: string)
    ensures LexLe(a, b) || LexLe(b, a)
  {
    if a != [] && b != [] && a[0] == b[0] {
      LexLeTotal(a[1..], b[1..]);
    }
  }

  lemma {:induction false} LexLeTransitive(a: string, b: string, c: string)
    requires LexLe(a, b) && LexLe(b, c)
    ensures LexLe(a, c)
  {
    if a != [] && b != [] && c != [] && a[0] == b[0] && b[0] == c[0] {
      LexLeTransitive(a[1..], b[1..], c[1..]);
    }
  }

  lemma {:induction false} LexLeAntisymmetric(a: string, b: string)
    requires LexLe(a, b) && LexLe(b, a)
    ensures a == b
  {
    if a != [] && b != [] {
      LexLeAntisymmetric(a[1..], b[1..]);
    }
  }

  /** No white space in `s[a..b]`. */
  predicate NoSpaceIn(s: string, a: int, b: int)
    requires 0 <= a <= b <= |s|
  {
    forall j :: a <= j < b ==> !IsSpace(s[j])
  }

  /** A match of `\S+@\S+\.\S+` with its '@' at `i` and its '.' at `k`. */
  predicate EmailMatchAt(s: string, i: int, k: int) {
    1 <= i && i + 2 <= k && k + 1 < |s|
    && s[i] == '@' && s[k] == '.' && !IsSpace(s[i - 1]) && !IsSpace(s[k + 1])
    && NoSpaceIn(s, i + 1, k)
  }

  /**
   * `/\S+@\S+\.\S+/.test(s)`: somewhere in `s` a non-space stands before an '@', a '.' follows
   * after at least one more character with only non-spaces between, and a non-space follows the '.'.
   */
  predicate LooksLikeEmail(s: string) {
    exists i, k :: 0 <= i < |s| && 0 <= k < |s| && EmailMatchAt(s, i, k)
  }

  /** A string the pattern accepts has an '@' followed later by a '.'. */
  lemma EmailHasAtThenDot(s: string)
    requires LooksLikeEmail(s)
    ensures exists i, k :: 0 <= i < k < |s| && s[i] == '@' && s[k] == '.'
  {
    var i, k :| 0 <= i < |s| && 0 <= k < |s| && EmailMatchAt(s, i, k);
    assert 0 <= i < k < |s| && s[i] == '@' && s[k] == '.';
  }

  /**
   * The pattern is not anchored: text around a match does not stop it from matching, so a
   * string with spaces or junk before or after an address is accepted as well.
   */
  lemma EmailUnanchored(pre: string, s: string, post: string)
    requires LooksLikeEmail(s)
    ensures LooksLikeEmail(pre + s + post)
  {
    var i, k :| 0 <= i < |s| && 0 <= k < |s| && EmailMatchAt(s, i, k);
    var t := pre + s + post;
    var d := |pre|;
    assert t[d..d + |s|] == s;
    assert t[d + i] == s[i] && t[d + i - 1] == s[i - 1] && t[d + k] == s[k] && t[d + k + 1] == s[k + 1];
    assert forall j :: d + i + 1 <= j < d + k ==> t[j] == s[j - d];
    assert EmailMatchAt(t, d + i, d + k);
  }

  /** A local part, a domain and a suffix, none of them empty or holding white space, make an address the pattern accepts. */
  lemma EmailFromParts(local: string, domain: string, suffix: string)
    requires local != [] && domain != [] && suffix != []
    requires NoSpaceIn(local, 0, |local|) && NoSpaceIn(domain, 0, |domain|) && NoSpaceIn(suffix, 0, |suffix|)
    ensures LooksLikeEmail(local + "@" + domain + "." + suffix)
  {
    var s := local + "@" + domain + "." + suffix;
    var i := |local|;
    var k := |local| + 1 + |domain|;
    assert forall j :: 0 <= j < |domain| ==> s[i + 1 + j] == domain[j];
    assert s[i - 1] == local[|local| - 1] && s[k + 1] == suffix[0];
    assert EmailMatchAt(s, i, k);
  }

  /**
   * `s.length`: the number of UTF-16 code units, one for each character up to U+FFFF and two
   * (a surrogate pair) for each character above it.
   */
  function Utf16Length(s: string): (n: nat)
    ensures |s| <= n <= 2 * |s|
    ensures n == |s| <==> forall i :: 0 <= i < |s| ==> s[i] as int <= 0xFFFF
  {
    if s == [] then 0
    else
      var rest := Utf16Length(s[1..]);
      assert forall i :: 1 <= i < |s| ==> s[i] == s[1..][i - 1];
      (if s[0] as int > 0xFFFF then 2 else 1) + rest
  }

  /** Code units add up over concatenation. */
  lemma {:induction false} Utf16LengthConcat(a: string, b: string)
    ensures Utf16Length(a + b) == Utf16Length(a) + Utf16Length(b)
  {
    if a == [] {
      assert a + b == b;
    } else {
      assert (a + b)[0] == a[0] && (a + b)[1..] == a[1..] + b;
      Utf16LengthConcat(a[1..], b);
    }
  }
}
