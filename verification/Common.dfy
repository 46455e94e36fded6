/**
  Vocabulary shared by the modules: optional values, target URLs, and the
  ordered filter that every health source applies to an endpoint list.
 */
module Common {
  datatype Option<+T> = None | Some(value: T)

  function Min(a: int, b: int): int { if a <= b then a else b }

  function Max(a: int, b: int): int { if a <= b then b else a }

  lemma MulMonotone(a: int, b: int, n: int)
    requires a <= b && n >= 0
    ensures a * n <= b * n
  {
  }

  /** Quotient and remainder are determined by their defining equation. */
  lemma QuotientUnique(n: int, q: int, r: int, q': int, r': int)
    requires q * n + r == q' * n + r' && 0 <= r < n && 0 <= r' < n
    ensures q == q' && r == r'
  {
    if q < q' {
      MulMonotone(q + 1, q', n);
      assert false;
    }
    if q' < q {
      MulMonotone(q' + 1, q, n);
      assert false;
    }
  }

  /** Position `i` of a ring of `n`: i modulo n, by WrapIsModulo. */
  function Wrap(i: nat, n: nat): (r: nat)
    requires n > 0
    ensures r < n
    ensures i < n ==> r == i
    ensures n <= i < 2 * n ==> r == i - n
  {
    if i < n then i else Wrap(i - n, n)
  }

  lemma {:induction false} WrapIsModulo(i: nat, n: nat)
    requires n > 0
    ensures Wrap(i, n) == i % n
  {
    if i < n {
      QuotientUnique(n, 0, i, i / n, i % n);
    } else {
      WrapIsModulo(i - n, n);
      QuotientUnique(n, (i - n) / n + 1, (i - n) % n, i / n, i % n);
    }
  }

  /** A target URL. `key` stands for its String() form, by which every map in
      the pool is indexed; two different URLs may share a key. */
  datatype Url = Url(key: string, detail: int)

  function Keys(urls: seq<Url>): (keys: set<string>)
    ensures forall u :: u in urls ==> u.key in keys
  {
    set u | u in urls :: u.key
  }

  lemma NoKeys()
    ensures Keys([]) == {}
  {
  }

  lemma KeysAppend(urls: seq<Url>, u: Url)
    ensures Keys(urls + [u]) == Keys(urls) + {u.key}
  {
  }

  lemma KeysTake(urls: seq<Url>, i: nat)
    requires i < |urls|
    ensures Keys(urls[..i + 1]) == Keys(urls[..i]) + {urls[i].key}
  {
  }

  /** The sublist of `urls` whose keys are in `allowed`, order and multiplicity kept. */
  ghost function KeepKeys(urls: seq<Url>, allowed: iset<string>): (kept: seq<Url>)
    ensures forall u :: u in kept <==> u in urls && u.key in allowed
  {
    if urls == [] then []
    else
      var front := KeepKeys(urls[..|urls| - 1], allowed);
      var last := urls[|urls| - 1];
      if last.key in allowed then front + [last] else front
  }

  lemma KeepKeysAppend(urls: seq<Url>, u: Url, allowed: iset<string>)
    ensures KeepKeys(urls + [u], allowed) ==
            KeepKeys(urls, allowed) + (if u.key in allowed then [u] else [])
  {
    assert (urls + [u])[..|urls|] == urls;
  }

  /** The filter depends only on how the two key sets treat the listed keys. */
  lemma {:induction false} KeepKeysAgree(urls: seq<Url>, a: iset<string>, b: iset<string>)
    requires forall u :: u in urls ==> (u.key in a <==> u.key in b)
    ensures KeepKeys(urls, a) == KeepKeys(urls, b)
  {
    if urls != [] {
      KeepKeysAgree(urls[..|urls| - 1], a, b);
    }
  }

  /** Filtering twice is filtering once by the intersection. */
  lemma {:induction false} KeepKeysTwice(urls: seq<Url>, a: iset<string>, b: iset<string>)
    ensures KeepKeys(KeepKeys(urls, a), b) == KeepKeys(urls, a * b)
  {
    if urls != [] {
      var front, last := urls[..|urls| - 1], urls[|urls| - 1];
      KeepKeysTwice(front, a, b);
      if last.key in a {
        KeepKeysAppend(KeepKeys(front, a), last, b);
      }
    }
  }

  lemma {:induction false} KeepKeysAll(urls: seq<Url>, allowed: iset<string>)
    requires forall u :: u in urls ==> u.key in allowed
    ensures KeepKeys(urls, allowed) == urls
  {
    if urls != [] {
      KeepKeysAll(urls[..|urls| - 1], allowed);
      assert urls == urls[..|urls| - 1] + [urls[|urls| - 1]];
    }
  }

  // ----- Stored ejections: keys and their deadlines -----

  /** Ejections whose deadline has not come: all that a read of the passive tracker leaves. */
  function Unexpired(ejected: map<string, int>, now: int): (left: map<string, int>)
    ensures forall k :: k in left <==> k in ejected && now < ejected[k]
    ensures forall k :: k in left ==> left[k] == ejected[k]
  {
    map k | k in ejected && now < ejected[k] :: ejected[k]
  }

  function OnlyKeys(ejected: map<string, int>, keys: set<string>): (left: map<string, int>)
    ensures forall k :: k in left <==> k in ejected && k in keys
    ensures forall k :: k in left ==> left[k] == ejected[k]
  {
    map k | k in ejected && k in keys :: ejected[k]
  }

  lemma {:induction false} SubsetSize<T>(a: set<T>, b: set<T>)
    requires a <= b
    ensures |a| <= |b|
  {
    if a != {} {
      var x :| x in a;
      SubsetSize(a - {x}, b - {x});
    }
  }

  lemma UnexpiredShrinks(ejected: map<string, int>, now: int, k: string)
    requires k in ejected && ejected[k] <= now
    ensures |Unexpired(ejected, now)| < |ejected|
  {
    var left := Unexpired(ejected, now);
    assert left.Keys <= ejected.Keys - {k};
    SubsetSize(left.Keys, ejected.Keys - {k});
  }
}
