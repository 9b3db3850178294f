/** Shared vocabulary: optional values, three-state patch fields and the
    ordered view of a JavaScript `Map`. */
module Common {

  /** `T | null` (or an optional property) of the TypeScript source. */
  datatype Option<T> = None | Some(value: T) {
    /** `x ?? default` */
    function GetOr(default: T): T {
      if Some? then value else default
    }
  }

  /** A field of a partial update: left out (`undefined`), explicitly `null`,
      or given a value. */
  datatype Patch<T> = Unset | Clear | Set(value: T)

  function Min(a: int, b: int): int {
    if a <= b then a else b
  }

  predicate NoDuplicates<T(==)>(s: seq<T>) {
    forall i, j :: 0 <= i < j < |s| ==> s[i] != s[j]
  }

  /** The values of `m` in the order of `ids`: `Array.from(map.values())`
      when `ids` is the map's insertion order. */
  function ValuesInOrder<V>(ids: seq<string>, m: map<string, V>): (r: seq<V>)
    requires forall i :: 0 <= i < |ids| ==> ids[i] in m
    ensures |r| == |ids|
    ensures forall i :: 0 <= i < |ids| ==> r[i] == m[ids[i]]
  {
    if ids == [] then [] else [m[ids[0]]] + ValuesInOrder(ids[1..], m)
  }

  /** `s` with every occurrence of `x` taken out, the rest in order. */
  function Without(s: seq<string>, x: string): (r: seq<string>)
    ensures forall y :: y in r <==> y in s && y != x
    ensures NoDuplicates(s) ==> NoDuplicates(r)
  {
    if s == [] then []
    else if s[0] == x then Without(s[1..], x)
    else
      var rest := Without(s[1..], x);
      assert NoDuplicates(s) ==> s[0] !in s[1..] && NoDuplicates(s[1..]);
      [s[0]] + rest
  }
}
