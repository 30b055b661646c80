/** `Array.prototype.find` by slug, shared by the two static catalogs. */
module SlugLookup {
  import opened Wrappers

  predicate HasKey<T>(s: seq<T>, key: T -> string, slug: string) {
    exists i :: 0 <= i < |s| && key(s[i]) == slug
  }

  /** `s.find(x => key(x) === slug)`: the first element whose key is `slug`. */
  function FindBySlug<T(==)>(s: seq<T>, key: T -> string, slug: string): (r: Option<T>)
    ensures r.None? <==> !HasKey(s, key, slug)
    ensures r.Some? ==> exists i :: 0 <= i < |s| && s[i] == r.value && key(r.value) == slug
                                    && (forall k :: 0 <= k < i ==> key(s[k]) != slug)
  {
    if s == [] then None
    else if key(s[0]) == slug then Some(s[0])
    else
      var r := FindBySlug(s[1..], key, slug);
      assert HasKey(s[1..], key, slug) ==> HasKey(s, key, slug);
      assert HasKey(s, key, slug) && key(s[0]) != slug ==> HasKey(s[1..], key, slug) by {
        if HasKey(s, key, slug) && key(s[0]) != slug {
          var i :| 0 <= i < |s| && key(s[i]) == slug;
          assert key(s[1..][i - 1]) == slug;
        }
      }
      if r.Some? then
        var i :| 0 <= i < |s[1..]| && s[1..][i] == r.value && key(r.value) == slug
                 && (forall k :: 0 <= k < i ==> key(s[1..][k]) != slug);
        assert s[i + 1] == r.value;
        assert forall k :: 0 < k < i + 1 ==> key(s[k]) == key(s[1..][k - 1]);
        r
      else r
  }

  predicate DistinctKeys<T>(s: seq<T>, key: T -> string) {
    forall i, j :: 0 <= i < j < |s| ==> key(s[i]) != key(s[j])
  }

  /** When keys are distinct, looking up an element's own key finds that element. */
  lemma FindOwnKey<T>(s: seq<T>, key: T -> string, i: nat)
    requires i < |s| && DistinctKeys(s, key)
    ensures FindBySlug(s, key, key(s[i])) == Some(s[i])
  {
    var r := FindBySlug(s, key, key(s[i]));
    assert HasKey(s, key, key(s[i]));
    var j :| 0 <= j < |s| && s[j] == r.value && key(r.value) == key(s[i])
             && (forall k :: 0 <= k < j ==> key(s[k]) != key(s[i]));
    assert j <= i by {
      assert key(s[i]) == key(s[i]);
    }
    assert j >= i by {
      assert key(s[j]) == key(s[i]);
    }
  }
}
