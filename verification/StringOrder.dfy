/** The order `Array.prototype.sort` puts strings in, and sorted lists without repeats. */
module StringOrder {

  /** a comes strictly before b, character by character. */
  predicate Less(a: string, b: string) {
    b != [] && (a == [] || a[0] < b[0] || (a[0] == b[0] && Less(a[1..], b[1..])))
  }

  /** The first k characters agree, and there a ends or has the smaller character. */
  ghost predicate LessAt(a: string, b: string, k: int) {
    0 <= k <= |a| && k < |b| && (forall i :: 0 <= i < k ==> a[i] == b[i]) && (k == |a| || a[k] < b[k])
  }

  lemma {:induction false} LessExactlyWhen(a: string, b: string)
    ensures Less(a, b) <==> exists k :: LessAt(a, b, k)
  {
    if a == [] || b == [] || a[0] != b[0] {
      assert LessAt(a, b, 0) <==> Less(a, b);
    } else {
      LessExactlyWhen(a[1..], b[1..]);
      if k :| LessAt(a, b, k) {
        assert LessAt(a[1..], b[1..], k - 1);
      }
      if k :| LessAt(a[1..], b[1..], k) {
        assert forall i :: 0 < i < k + 1 ==> a[i] == a[1..][i - 1] && b[i] == b[1..][i - 1];
        assert LessAt(a, b, k + 1);
      }
    }
  }

  lemma {:induction false} Trichotomy(a: string, b: string)
    ensures a == b || Less(a, b) || Less(b, a)
  {
    if a != [] && b != [] && a[0] == b[0] {
      Trichotomy(a[1..], b[1..]);
      assert a == [a[0]] + a[1..] && b == [b[0]] + b[1..];
    }
  }

  lemma {:induction false} Asymmetric(a: string, b: string)
    requires Less(a, b)
    ensures !Less(b, a) && a != b
  {
    if a != [] && a[0] == b[0] {
      Asymmetric(a[1..], b[1..]);
    }
  }

  lemma {:induction false} Transitive(a: string, b: string, c: string)
    requires Less(a, b) && Less(b, c)
    ensures Less(a, c)
  {
    if a != [] && a[0] == b[0] == c[0] {
      Transitive(a[1..], b[1..], c[1..]);
    }
  }

  /** Strictly ascending: sorted, and no string twice. */
  ghost predicate Ascending(keys: seq<string>) {
    forall i, j :: 0 <= i < j < |keys| ==> Less(keys[i], keys[j])
  }

  function Insert(key: string, keys: seq<string>): seq<string> {
    if keys == [] || Less(key, keys[0]) then [key] + keys
    else if key == keys[0] then keys
    else [keys[0]] + Insert(key, keys[1..])
  }

  /** `[...new Set(keys)].sort()`. */
  function SortDistinct(keys: seq<string>): seq<string> {
    if keys == [] then [] else Insert(keys[0], SortDistinct(keys[1..]))
  }

  lemma {:induction false} InsertKeepsAscending(key: string, keys: seq<string>)
    requires Ascending(keys)
    ensures Ascending(Insert(key, keys))
    ensures forall k :: k in Insert(key, keys) <==> k == key || k in keys
  {
    if keys == [] {
    } else if Less(key, keys[0]) {
      forall j | 0 < j < |keys| ensures Less(key, keys[j]) {
        Transitive(key, keys[0], keys[j]);
      }
    } else if key != keys[0] {
      Trichotomy(key, keys[0]);
      InsertKeepsAscending(key, keys[1..]);
      var rest := Insert(key, keys[1..]);
      assert forall k :: k in keys <==> k == keys[0] || k in keys[1..];
      forall j | 0 <= j < |rest| ensures Less(keys[0], rest[j]) {
        assert rest[j] in rest;
      }
    }
  }

  lemma {:induction false} SortDistinctSorts(keys: seq<string>)
    ensures Ascending(SortDistinct(keys))
    ensures forall k :: k in SortDistinct(keys) <==> k in keys
  {
    if keys != [] {
      SortDistinctSorts(keys[1..]);
      InsertKeepsAscending(keys[0], SortDistinct(keys[1..]));
      assert forall k :: k in keys <==> k == keys[0] || k in keys[1..];
    }
  }
}
