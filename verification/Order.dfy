/** String order used wherever the program sorts keys or identifiers with
    `Array.prototype.sort`, and the unique ascending listing of a set of keys. */
module Order {

  /** Lexicographic comparison, one character at a time. */
  predicate Less(a: string, b: string) {
    if b == "" then false
    else if a == "" then true
    else if a[0] != b[0] then a[0] < b[0]
    else Less(a[1..], b[1..])
  }

  /** The shorter of two strings that agree as far as both go is less; otherwise the first
      difference decides. */
  lemma {:induction false} LessExactly(a: string, b: string)
    ensures Less(a, b) <==> exists n :: DecidesAt(a, b, n)
  {
    if a != "" && b != "" && a[0] == b[0] {
      LessExactly(a[1..], b[1..]);
      if n :| DecidesAt(a, b, n) {
        assert a[1..][..n - 1] == a[..n][1..] && b[1..][..n - 1] == b[..n][1..];
        assert DecidesAt(a[1..], b[1..], n - 1);
      }
      if n :| DecidesAt(a[1..], b[1..], n) {
        assert a[..n + 1] == [a[0]] + a[1..][..n] && b[..n + 1] == [b[0]] + b[1..][..n];
        assert DecidesAt(a, b, n + 1);
      }
    } else if a == "" && b != "" {
      assert DecidesAt(a, b, 0);
    } else if a != "" && b != "" && a[0] < b[0] {
      assert DecidesAt(a, b, 0);
    } else {
      forall n ensures !DecidesAt(a, b, n) {
        if a != "" && b != "" && 0 < n <= |a| && n <= |b| { assert a[..n][0] != b[..n][0]; }
      }
    }
  }

  predicate DecidesAt(a: string, b: string, n: int) {
    0 <= n <= |a| && n < |b| && a[..n] == b[..n] && (n == |a| || a[n] < b[n])
  }

  lemma {:induction false} LessTransitive(a: string, b: string, c: string)
    requires Less(a, b) && Less(b, c)
    ensures Less(a, c)
  {
    if a != "" && a[0] == b[0] && b[0] == c[0] {
      LessTransitive(a[1..], b[1..], c[1..]);
    }
  }

  lemma {:induction false} LessTrichotomy(a: string, b: string)
    ensures Less(a, b) || a == b || Less(b, a)
    ensures !(Less(a, b) && Less(b, a))
    ensures !Less(a, a)
  {
    if a != "" && b != "" {
      LessTrichotomy(a[1..], b[1..]);
      assert a == [a[0]] + a[1..] && b == [b[0]] + b[1..];
    }
    if a != "" {
      LessTrichotomy(a[1..], a[1..]);
    }
  }

  predicate Ascending(keys: seq<string>) {
    forall i, j :: 0 <= i < j < |keys| ==> Less(keys[i], keys[j])
  }

  predicate IsLeast(least: string, keys: set<string>) {
    least in keys && forall k :: k in keys && k != least ==> Less(least, k)
  }

  lemma {:induction false} LeastExists(keys: set<string>)
    requires keys != {}
    ensures exists least :: IsLeast(least, keys)
    ensures forall a, b :: IsLeast(a, keys) && IsLeast(b, keys) ==> a == b
  {
    var candidate :| candidate in keys;
    if keys == {candidate} {
      assert IsLeast(candidate, keys);
    } else {
      LeastExists(keys - {candidate});
      var rest :| IsLeast(rest, keys - {candidate});
      LessTrichotomy(candidate, rest);
      if Less(candidate, rest) {
        forall k | k in keys && k != candidate && k != rest ensures Less(candidate, k) {
          LessTransitive(candidate, rest, k);
        }
        assert IsLeast(candidate, keys);
      } else {
        assert IsLeast(rest, keys);
      }
    }
    forall a, b | IsLeast(a, keys) && IsLeast(b, keys) ensures a == b { LessTrichotomy(a, b); }
  }

  function Least(keys: set<string>): (least: string)
    requires keys != {}
    ensures IsLeast(least, keys)
  {
    LeastExists(keys);
    var least :| least in keys && IsLeast(least, keys);
    least
  }

  /** The keys of a finite set in ascending order. */
  function Sorted(keys: set<string>): (listing: seq<string>)
    ensures Ascending(listing)
    ensures forall k :: k in listing <==> k in keys
    ensures |listing| == |keys|
  {
    if keys == {} then [] else
      var least := Least(keys);
      [least] + Sorted(keys - {least})
  }

  /** An ascending listing is determined by the set it lists. */
  lemma {:induction false} AscendingUnique(a: seq<string>, b: seq<string>)
    requires Ascending(a) && Ascending(b)
    requires forall k :: k in a <==> k in b
    ensures a == b
  {
    if b != [] { assert b[0] in b; }
    if a != [] {
      assert a[0] in b;
      assert b[0] in a;
      LessTrichotomy(a[0], b[0]);
      assert a[0] == b[0];
      forall k ensures k in a[1..] <==> k in b[1..] {
        LessTrichotomy(a[0], a[0]);
        if k in a[1..] { assert k in b; }
        if k in b[1..] { assert k in a; }
      }
      AscendingUnique(a[1..], b[1..]);
    }
  }
}
