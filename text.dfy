/** The string replacement the transformer service applies to conditions:
    Java's String.replace on a non-empty target, which scans left to right
    and replaces every non-overlapping occurrence. */
module Text {

  /** Whether `target` occurs in `s` starting at index i. */
  predicate OccursAt(s: string, target: string, i: nat) {
    i + |target| <= |s| && s[i..i + |target|] == target
  }

  /** Every occurrence of `target` in `s`, left to right, replaced by
      `replacement`. */
  function Replace(s: string, target: string, replacement: string): (r: string)
    requires |target| > 0
    ensures |s| < |target| ==> r == s
    decreases |s|
  {
    if |s| < |target| then s
    else if s[..|target|] == target then replacement + Replace(s[|target|..], target, replacement)
    else [s[0]] + Replace(s[1..], target, replacement)
  }

  /** A string holding no occurrence of the target is left as it is. */
  lemma {:induction false} ReplaceWithoutOccurrence(s: string, target: string, replacement: string)
    requires |target| > 0
    requires forall i: nat :: !OccursAt(s, target, i)
    ensures Replace(s, target, replacement) == s
    decreases |s|
  {
    if |s| >= |target| {
      assert !OccursAt(s, target, 0);
      forall i: nat ensures !OccursAt(s[1..], target, i) {
        assert !OccursAt(s, target, i + 1);
      }
      ReplaceWithoutOccurrence(s[1..], target, replacement);
    }
  }

  /** A prefix of the rewritten condition that holds no '#' was copied
      unchanged from the input: each replacement starts with '#'. */
  lemma {:induction false} HashFreePrefixIsCopied(s: string, k: nat)
    requires k <= |Replace(s, "#coreData", "#value")|
    ensures (forall j :: 0 <= j < k ==> Replace(s, "#coreData", "#value")[j] != '#') ==>
              k <= |s| && s[..k] == Replace(s, "#coreData", "#value")[..k]
    decreases |s|
  {
    var r := Replace(s, "#coreData", "#value");
    if k > 0 && |s| >= 9 {
      if s[..9] == "#coreData" {
        assert r[0] == '#';
      } else if forall j :: 0 <= j < k ==> r[j] != '#' {
        var rest := Replace(s[1..], "#coreData", "#value");
        assert r == [s[0]] + rest;
        assert forall j :: 0 <= j < k - 1 ==> rest[j] == r[j + 1];
        HashFreePrefixIsCopied(s[1..], k - 1);
        assert s[..k] == [s[0]] + s[1..][..k - 1];
        assert r[..k] == [s[0]] + rest[..k - 1];
      }
    }
  }

  /** After the rewrite no "#coreData" is left: every occurrence became
      "#value" and no new one appears across a replacement's edges. */
  lemma {:induction false} NoCoreDataAfterRewrite(s: string)
    ensures forall i: nat :: !OccursAt(Replace(s, "#coreData", "#value"), "#coreData", i)
    decreases |s|
  {
    var r := Replace(s, "#coreData", "#value");
    assert forall i: nat :: i + 9 > |r| ==> !OccursAt(r, "#coreData", i);
    if |s| >= 9 {
      if s[..9] == "#coreData" {
        var rest := Replace(s[9..], "#coreData", "#value");
        assert r == "#value" + rest;
        NoCoreDataAfterRewrite(s[9..]);
        forall i: nat | i + 9 <= |r| ensures !OccursAt(r, "#coreData", i) {
          if i == 0 {
            assert r[i..i + 9][1] == r[1] == 'v';
          } else if i < 6 {
            assert r[i..i + 9][0] == r[i] == "#value"[i];
          } else {
            assert r[6..] == rest;
            assert r[i..i + 9] == rest[i - 6..i + 3];
            assert !OccursAt(rest, "#coreData", i - 6);
          }
        }
      } else {
        var rest := Replace(s[1..], "#coreData", "#value");
        assert r == [s[0]] + rest;
        NoCoreDataAfterRewrite(s[1..]);
        forall i: nat | i + 9 <= |r| ensures !OccursAt(r, "#coreData", i) {
          if i > 0 {
            assert r[1..] == rest;
            assert r[i..i + 9] == rest[i - 1..i + 8];
            assert !OccursAt(rest, "#coreData", i - 1);
          } else if r[0] != '#' {
            assert r[..9][0] != '#';
          } else if exists j :: 0 <= j < 8 && rest[j] == '#' {
            var j :| 0 <= j < 8 && rest[j] == '#';
            assert r[..9][j + 1] == rest[j] == '#';
            assert "#coreData"[j + 1] != '#';
          } else {
            HashFreePrefixIsCopied(s[1..], 8);
            assert s[..9] == [s[0]] + s[1..][..8];
            assert r[..9] == [r[0]] + rest[..8];
          }
        }
      }
    }
  }
}
