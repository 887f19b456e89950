/** `update_status`'s de-duplication: the status lines are scanned from
    the newest to the oldest and a line is kept only when no newer line
    has the same three-character prefix (`m[:3]`). */
module Dedup {

  import opened Text

  /** `m[:3]`: the line's kind character and its two-character key. */
  function Prefix(line: string): string
  {
    Take(line, 3)
  }

  /** No line after position `i` has the prefix of line `i`. */
  predicate IsLatest(lines: seq<string>, i: int)
    requires 0 <= i < |lines|
  {
    forall j :: i < j < |lines| ==> Prefix(lines[j]) != Prefix(lines[i])
  }

  /** The latest lines among positions `k..`, newest first. */
  function LatestFrom(lines: seq<string>, k: nat): seq<string>
    decreases |lines| - k
  {
    if k >= |lines| then []
    else LatestFrom(lines, k + 1) + (if IsLatest(lines, k) then [lines[k]] else [])
  }

  /** The lines `update_status` acts on, newest first. */
  function Latest(lines: seq<string>): seq<string>
  {
    LatestFrom(lines, 0)
  }

  /** The de-duplication loop of `update_status`: `codes` collects the lines
      whose prefix is not yet in `codes_uniq`, walking the lines backwards. */
  method KeepLatest(lines: seq<string>) returns (codes: seq<string>)
    ensures codes == Latest(lines)
  {
    codes := [];
    var uniq: seq<string> := [];
    var k := |lines|;
    while k > 0
      invariant 0 <= k <= |lines|
      invariant codes == LatestFrom(lines, k)
      invariant forall p :: p in uniq <==> exists j :: k <= j < |lines| && Prefix(lines[j]) == p
    {
      var m := lines[k - 1];
      if Prefix(m) !in uniq {
        codes := codes + [m];
        uniq := uniq + [Prefix(m)];
      }
      k := k - 1;
    }
  }

  /** A line at or after `k` is kept exactly when it is the latest of its prefix. */
  lemma {:induction false} LatestFromMembers(lines: seq<string>, k: nat, c: string)
    ensures c in LatestFrom(lines, k) <==>
      exists i :: k <= i < |lines| && IsLatest(lines, i) && lines[i] == c
    decreases |lines| - k
  {
    if k < |lines| {
      var rest := LatestFrom(lines, k + 1);
      var mine := if IsLatest(lines, k) then [lines[k]] else [];
      assert LatestFrom(lines, k) == rest + mine;
      assert c in rest + mine <==> c in rest || c in mine;
      LatestFromMembers(lines, k + 1, c);
      if c in mine {
        assert k <= k < |lines| && IsLatest(lines, k) && lines[k] == c;
      }
    }
  }

  /** Kept lines are exactly the latest line of each prefix. */
  lemma LatestMembers(lines: seq<string>, c: string)
    ensures c in Latest(lines) <==>
      exists i :: 0 <= i < |lines| && IsLatest(lines, i) && lines[i] == c
  {
    LatestFromMembers(lines, 0, c);
  }

  /** Every prefix has a latest line. */
  lemma {:induction false} HasLatest(lines: seq<string>, i: int)
    requires 0 <= i < |lines|
    ensures exists j :: i <= j < |lines| && IsLatest(lines, j) && Prefix(lines[j]) == Prefix(lines[i])
    decreases |lines| - i
  {
    if !IsLatest(lines, i) {
      var j :| i < j < |lines| && Prefix(lines[j]) == Prefix(lines[i]);
      HasLatest(lines, j);
    }
  }

  /** Every prefix that occurs in the lines is represented among the kept lines. */
  lemma LatestCovers(lines: seq<string>, i: int)
    requires 0 <= i < |lines|
    ensures exists c :: c in Latest(lines) && Prefix(c) == Prefix(lines[i])
  {
    HasLatest(lines, i);
    var j :| i <= j < |lines| && IsLatest(lines, j) && Prefix(lines[j]) == Prefix(lines[i]);
    LatestMembers(lines, lines[j]);
  }

  /** No two kept lines share a prefix (so '#' messages with the same first
      two characters collapse to the newest one, too). */
  lemma {:induction false} LatestFromDistinct(lines: seq<string>, k: nat)
    ensures var r := LatestFrom(lines, k);
      forall a, b :: 0 <= a < b < |r| ==> Prefix(r[a]) != Prefix(r[b])
    decreases |lines| - k
  {
    if k < |lines| {
      LatestFromDistinct(lines, k + 1);
      if IsLatest(lines, k) {
        var rest := LatestFrom(lines, k + 1);
        forall a | 0 <= a < |rest| ensures Prefix(rest[a]) != Prefix(lines[k]) {
          LatestFromMembers(lines, k + 1, rest[a]);
          var i :| k + 1 <= i < |lines| && IsLatest(lines, i) && lines[i] == rest[a];
        }
      }
    }
  }

  lemma LatestDistinct(lines: seq<string>)
    ensures var r := Latest(lines);
      forall a, b :: 0 <= a < b < |r| ==> Prefix(r[a]) != Prefix(r[b])
  {
    LatestFromDistinct(lines, 0);
    assert Latest(lines) == LatestFrom(lines, 0);
  }

  /** The kept lines come newest first: of two kept lines, the one that
      arrived later is the earlier in `Latest`. */
  lemma {:induction false} LatestFromOrder(lines: seq<string>, k: nat, i: int, j: int)
    requires k <= i < j < |lines| && IsLatest(lines, i) && IsLatest(lines, j)
    ensures exists a, b :: 0 <= a < b < |LatestFrom(lines, k)| &&
                           LatestFrom(lines, k)[a] == lines[j] && LatestFrom(lines, k)[b] == lines[i]
    decreases |lines| - k
  {
    var rest := LatestFrom(lines, k + 1);
    if k < i {
      LatestFromOrder(lines, k + 1, i, j);
      var a, b :| 0 <= a < b < |rest| && rest[a] == lines[j] && rest[b] == lines[i];
      var r := LatestFrom(lines, k);
      assert r[a] == rest[a] && r[b] == rest[b];
      assert 0 <= a < b < |r| && r[a] == lines[j] && r[b] == lines[i];
    } else {
      LatestFromMembers(lines, k + 1, lines[j]);
      var a :| 0 <= a < |rest| && rest[a] == lines[j];
      var r := LatestFrom(lines, k);
      assert r[a] == lines[j] && r[|rest|] == lines[i];
    }
  }

  lemma LatestOrder(lines: seq<string>, i: int, j: int)
    requires 0 <= i < j < |lines| && IsLatest(lines, i) && IsLatest(lines, j)
    ensures var r := Latest(lines);
      exists a, b :: 0 <= a < b < |r| && r[a] == lines[j] && r[b] == lines[i]
  {
    LatestFromOrder(lines, 0, i, j);
    assert Latest(lines) == LatestFrom(lines, 0);
  }
}
