/**
 * Building blocks for the regular expressions of the diagnostic parser.
 *
 * The regex crate's `captures` returns the leftmost match, and among the
 * matches that start there the one its backtracking order finds first
 * (greedy repetition, alternatives tried left to right). Every regex of the
 * parser is written as an anchored matcher `At(s, i)` that returns the
 * captures of that match at index `i`, and `Leftmost` scans for the smallest
 * index. In every regex of the parser a greedy class is followed by a
 * character outside the class (`[^"]+` by `"`, `\d+` by `:`), so backtracking
 * never shortens it: the group ends at the first character outside the class.
 */
module Pattern {
  import opened Wrappers
  import opened Text

  /** The leftmost match of the anchored matcher `at` in `s`. */
  function Leftmost<C>(s: string, at: (string, nat) -> Option<C>): Option<C> {
    LeftmostFrom(s, 0, at)
  }

  function LeftmostFrom<C>(s: string, i: nat, at: (string, nat) -> Option<C>): Option<C>
    decreases |s| + 1 - i
  {
    if i > |s| then None
    else if at(s, i).Some? then at(s, i)
    else LeftmostFrom(s, i + 1, at)
  }

  /** A match at `j` with none before it is the leftmost match. */
  lemma {:induction false} LeftmostFromIsFirst<C>(s: string, i: nat, j: nat, at: (string, nat) -> Option<C>)
    requires i <= j <= |s| && at(s, j).Some?
    requires forall k :: i <= k < j ==> at(s, k).None?
    ensures LeftmostFrom(s, i, at) == at(s, j)
    decreases j - i
  {
    if i < j {
      LeftmostFromIsFirst(s, i + 1, j, at);
    }
  }

  /** A match at `j` with none before it is the leftmost match of the whole text. */
  lemma LeftmostAt<C>(s: string, j: nat, at: (string, nat) -> Option<C>, v: C)
    requires j <= |s| && at(s, j) == Some(v)
    requires forall k :: 0 <= k < j ==> at(s, k).None?
    ensures Leftmost(s, at) == Some(v)
  {
    LeftmostFromIsFirst(s, 0, j, at);
  }

  /** The leftmost match is a match at some index, and no match starts earlier. */
  lemma {:induction false} LeftmostFromFound<C>(s: string, i: nat, at: (string, nat) -> Option<C>) returns (j: nat)
    requires LeftmostFrom(s, i, at).Some?
    ensures i <= j <= |s| && at(s, j) == LeftmostFrom(s, i, at)
    ensures forall k :: i <= k < j ==> at(s, k).None?
    decreases |s| + 1 - i
  {
    if at(s, i).Some? {
      j := i;
    } else {
      j := LeftmostFromFound(s, i + 1, at);
    }
  }

  /** No match is found exactly when no index starts a match. */
  lemma {:induction false} LeftmostFromNone<C>(s: string, i: nat, at: (string, nat) -> Option<C>)
    ensures LeftmostFrom(s, i, at).None? <==> forall k :: i <= k <= |s| ==> at(s, k).None?
    decreases |s| + 1 - i
  {
    if i <= |s| {
      LeftmostFromNone(s, i + 1, at);
    }
  }

  lemma LeftmostFound<C>(s: string, at: (string, nat) -> Option<C>) returns (j: nat)
    requires Leftmost(s, at).Some?
    ensures j <= |s| && at(s, j) == Leftmost(s, at)
    ensures forall k :: 0 <= k < j ==> at(s, k).None?
  {
    j := LeftmostFromFound(s, 0, at);
  }

  /** `(.+)` at `j`: the rest of the line, which must not be empty. */
  function RestOfLine(s: string, j: nat): (r: Option<string>)
    ensures r.Some? ==> j < |s| && |r.value| > 0 && j + |r.value| <= |s| && r.value == s[j..j + |r.value|]
    ensures r.Some? ==> '\n' !in r.value && (j + |r.value| == |s| || s[j + |r.value|] == '\n')
    ensures r.None? ==> j >= |s| || s[j] == '\n'
  {
    if j >= |s| then None
    else
      var e := RunEnd(s, j, NotNewline);
      if e > j then
        RunEndInClass(s, j, NotNewline);
        assert '\n' !in s[j..e] by {
          forall k | 0 <= k < e - j ensures s[j..e][k] != '\n' { assert s[j..e][k] == s[j + k]; }
        }
        Some(s[j..e])
      else None
  }

  /** A non-empty text without a line feed that stands at `j` and ends its line is the rest of the line. */
  lemma RestOfLineAt(s: string, j: nat, t: string)
    requires |t| > 0 && '\n' !in t && OccursAt(s, t, j)
    requires j + |t| == |s| || s[j + |t|] == '\n'
    ensures RestOfLine(s, j) == Some(t)
  {
    forall k | j <= k < j + |t| ensures NotNewline(s[k]) { assert s[j..j + |t|][k - j] == s[k]; }
    RunEndAt(s, j, j + |t|, NotNewline);
  }

  /** A non-empty tail without a line feed is the rest of the line. */
  lemma RestOfLineToEnd(s: string, j: nat)
    requires j < |s| && forall k :: j <= k < |s| ==> s[k] != '\n'
    ensures RestOfLine(s, j) == Some(s[j..])
  {
    assert forall k :: j <= k < |s| ==> NotNewline(s[k]);
    RunEndAt(s, j, |s|, NotNewline);
    assert s[j..|s|] == s[j..];
  }

  /** `f` is a non-empty name, a dot and the extension `e`: `[^…]+\.(e)`. */
  predicate HasExt(f: string, e: string) {
    |f| > |e| + 1 && f[|f| - |e| - 1..] == "." + e
  }

  /** The first extension of `exts` that `f` ends in, the alternation `(e1|e2|…)`. */
  function ExtOf(f: string, exts: seq<string>): Option<string> {
    if exts == [] then None
    else if HasExt(f, exts[0]) then Some(exts[0])
    else ExtOf(f, exts[1..])
  }

  /** The extension found is listed and ends the name; when none is found, no listed one does. */
  lemma {:induction false} ExtOfSpec(f: string, exts: seq<string>)
    ensures ExtOf(f, exts).Some? ==> ExtOf(f, exts).value in exts && HasExt(f, ExtOf(f, exts).value)
    ensures ExtOf(f, exts).None? ==> forall e :: e in exts ==> !HasExt(f, e)
    decreases |exts|
  {
    if exts != [] && !HasExt(f, exts[0]) {
      ExtOfSpec(f, exts[1..]);
      if ExtOf(f, exts).Some? {
        InTail(exts, ExtOf(f, exts).value);
      } else {
        forall e | e in exts ensures !HasExt(f, e) {
          if e != exts[0] {
            var k :| 0 <= k < |exts| && exts[k] == e;
            assert exts[1..][k - 1] == e;
          }
        }
      }
    }
  }

  /**
   * A name ends in at most one dot-free extension, so the alternative the
   * regex settles on does not depend on the order the extensions are listed.
   */
  lemma ExtUnique(f: string, e1: string, e2: string)
    requires '.' !in e1 && '.' !in e2
    requires HasExt(f, e1) && HasExt(f, e2)
    ensures e1 == e2
  {
    var n := |f|;
    assert f[n - |e1| - 1] == '.' by { assert f[n - |e1| - 1..][0] == '.'; }
    assert f[n - |e2| - 1] == '.' by { assert f[n - |e2| - 1..][0] == '.'; }
    assert forall m :: n - |e2| <= m < n ==> f[m] == e2[m - (n - |e2|)] by {
      forall m | n - |e2| <= m < n ensures f[m] == e2[m - (n - |e2|)] {
        assert f[m] == f[n - |e2| - 1..][m - (n - |e2| - 1)];
      }
    }
    assert forall m :: n - |e1| <= m < n ==> f[m] == e1[m - (n - |e1|)] by {
      forall m | n - |e1| <= m < n ensures f[m] == e1[m - (n - |e1|)] {
        assert f[m] == f[n - |e1| - 1..][m - (n - |e1| - 1)];
      }
    }
    assert |e1| == |e2|;
    assert e1 == f[n - |e1|..] == e2;
  }

  /**
   * `prefix([^d]+)d suffix` at `i`, with `d` the delimiter: the group runs
   * from the end of the prefix to the first `d`, and must not be empty.
   */
  function DelimitedAt(s: string, i: nat, prefix: string, delim: char, suffix: string): (r: Option<string>)
    ensures r.Some? ==>
      var b := i + |prefix|;
      OccursAt(s, prefix, i) && |r.value| > 0 && b + |r.value| < |s| && r.value == s[b..b + |r.value|]
      && s[b + |r.value|] == delim && delim !in r.value && OccursAt(s, suffix, b + |r.value| + 1)
  {
    if !OccursAt(s, prefix, i) then None
    else
      var b := i + |prefix|;
      var q := RunEnd(s, b, c => c != delim);
      if q > b && q < |s| && OccursAt(s, suffix, q + 1) then
        RunEndInClass(s, b, c => c != delim);
        assert delim !in s[b..q] by {
          forall k | 0 <= k < q - b ensures s[b..q][k] != delim { assert s[b..q][k] == s[b + k]; }
        }
        Some(s[b..q])
      else None
  }

  /** The name and the rest of the line in `(Name1|Name2|…): (.+)`. */
  datatype NamedCap = NamedCap(name: string, detail: string)

  /** `n: (.+)` at `i`: the rest of the line after the name `n` and `": "`. */
  function NameDetailAt(s: string, i: nat, n: string): (r: Option<string>)
    ensures r.Some? ==> OccursAt(s, n, i) && OccursAt(s, ": ", i + |n|) && RestOfLine(s, i + |n| + 2) == r
  {
    if OccursAt(s, n, i) && OccursAt(s, ": ", i + |n|) then RestOfLine(s, i + |n| + 2) else None
  }

  /** Where the prefix `p` occurs, `p + n: (.+)` captures what `n: (.+)` captures after it. */
  lemma NameDetailPrefixed(s: string, i: nat, p: string, n: string)
    requires OccursAt(s, p, i)
    ensures NameDetailAt(s, i, p + n) == NameDetailAt(s, i + |p|, n)
  {
    OccursConcat(s, p, n, i);
  }

  /** A name matched with its details is followed by a colon. */
  lemma NameDetailColon(s: string, i: nat, n: string)
    requires NameDetailAt(s, i, n).Some?
    ensures i + |n| < |s| && s[i + |n|] == ':'
  {
    assert s[i + |n|..i + |n| + 2][0] == s[i + |n|];
  }

  /**
   * `(n1|n2|…): (.+)` at `i`: the first listed name that stands at `i` and is
   * followed by `": "` and a non-empty rest of the line.
   */
  function NamedAt(s: string, i: nat, names: seq<string>): (r: Option<NamedCap>)
    ensures r.Some? ==> r.value.name in names && NameDetailAt(s, i, r.value.name) == Some(r.value.detail)
    decreases |names|
  {
    if names == [] then None
    else
      match NameDetailAt(s, i, names[0])
      case Some(d) => Some(NamedCap(names[0], d))
      case None =>
        var rest := NamedAt(s, i, names[1..]);
        if rest.Some? then InTail(names, rest.value.name); rest else rest
  }

  /** Two colon-free names both followed at `i` by `": "` are the same name. */
  lemma NameDetailUnique(s: string, i: nat, n: string, m: string)
    requires ':' !in n && ':' !in m
    requires NameDetailAt(s, i, n).Some? && NameDetailAt(s, i, m).Some?
    ensures n == m
  {
    NameDetailColon(s, i, n);
    NameDetailColon(s, i, m);
    assert forall k :: 0 <= k < |n| ==> s[i + k] == n[k] by {
      forall k | 0 <= k < |n| ensures s[i + k] == n[k] { assert s[i..i + |n|][k] == s[i + k]; }
    }
    assert forall k :: 0 <= k < |m| ==> s[i + k] == m[k] by {
      forall k | 0 <= k < |m| ensures s[i + k] == m[k] { assert s[i..i + |m|][k] == s[i + k]; }
    }
  }

  /** Among colon-free names, the alternation at `i` picks the name that stands there with its details. */
  lemma {:induction false} NamedAtFinds(s: string, i: nat, names: seq<string>, n: string)
    requires n in names && forall m :: m in names ==> ':' !in m
    requires NameDetailAt(s, i, n).Some?
    ensures NamedAt(s, i, names) == Some(NamedCap(n, NameDetailAt(s, i, n).value))
    decreases |names|
  {
    if NameDetailAt(s, i, names[0]).Some? {
      NameDetailUnique(s, i, n, names[0]);
    } else {
      assert n != names[0];
      assert n in names[1..] by {
        var k :| 0 <= k < |names| && names[k] == n;
        assert names[1..][k - 1] == n;
      }
      NamedAtFinds(s, i, names[1..], n);
    }
  }

  /**
   * No line-feed-free name takes details from a position at or before the end
   * of a first line in which no `": "` stands.
   */
  lemma NameDetailBeforeLine(s: string, m: nat, k: nat, n: string)
    requires k < m <= |s| && s[m - 1] == '\n' && '\n' !in n
    requires forall j :: k <= j < m ==> !OccursAt(s, ": ", j)
    ensures NameDetailAt(s, k, n).None?
  {
  }

  /** A name listed after the first is listed. */
  lemma InTail(names: seq<string>, n: string)
    requires |names| > 0 && n in names[1..]
    ensures n in names
  {
    var k :| 0 <= k < |names[1..]| && names[1..][k] == n;
    assert names[k + 1] == n;
  }
}
