/** `new Map(rows.map((r) => [r.reviewer, r]))`: the last row of each reviewer. */
module LatestRows {

  function Latest<R>(rows: seq<R>, key: R -> string): map<string, R> {
    if rows == [] then map[]
    else
      var last := rows[|rows| - 1];
      Latest(rows[..|rows| - 1], key)[key(last) := last]
  }

  /** Row `k` carries the name and no later row does. */
  predicate LastAt<R>(rows: seq<R>, key: R -> string, name: string, k: nat) {
    k < |rows| && key(rows[k]) == name && forall j :: k < j < |rows| ==> key(rows[j]) != name
  }

  lemma {:induction false} LatestIsLast<R>(rows: seq<R>, key: R -> string, name: string)
    ensures name in Latest(rows, key) <==> exists k: nat :: LastAt(rows, key, name, k)
    ensures forall k: nat :: LastAt(rows, key, name, k) ==> name in Latest(rows, key) && Latest(rows, key)[name] == rows[k]
  {
    if rows == [] {
    } else {
      var n := |rows| - 1;
      var before := rows[..n];
      LatestIsLast(before, key, name);
      if key(rows[n]) == name {
        assert LastAt(rows, key, name, n);
        assert forall k: nat :: LastAt(rows, key, name, k) ==> k == n;
      } else {
        assert forall k: nat :: LastAt(before, key, name, k) ==> LastAt(rows, key, name, k);
        assert forall k: nat :: LastAt(rows, key, name, k) ==> LastAt(before, key, name, k);
      }
    }
  }
}
