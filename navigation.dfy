/**
 * The previous/next page links of a documentation page
 * (src/components/navigation/Navigation.ts): the lookup key taken from the
 * location hash, and `getPath`'s scan over the sidebar of data.json, which
 * also rewrites, in place, each section that carries its own link.
 */
module Navigation {
  import opened Wrappers

  /** `RouterProps`: one page of the sidebar. */
  datatype Item = Item(title: string, link: string)

  /** A sidebar section; `link` is `None` where data.json has no `link` key. */
  datatype Section = Section(title: string, link: Option<string>, items: seq<Item>)

  // ---------------------------------------------------------------------
  // The lookup key (`getURL` and the first line of `getPath`)
  // ---------------------------------------------------------------------

  function DropLeading(s: string, c: char): string {
    if |s| > 0 && s[0] == c then s[1..] else s
  }

  /** `getURL()`: the location hash without one leading `#`. */
  function GetURL(hash: string): (r: string)
    ensures hash == (if |hash| > 0 && hash[0] == '#' then "#" else "") + r
  {
    DropLeading(hash, '#')
  }

  /** The key `getPath` looks for: one leading `#`, then one leading `/`, removed. */
  function LookupKey(hash: string): string {
    DropLeading(GetURL(hash), '/')
  }

  /** At most one `#` and then at most one `/` are removed, nothing else. */
  lemma LookupKeyCases(hash: string)
    ensures |hash| >= 2 && hash[0] == '#' && hash[1] == '/' ==> LookupKey(hash) == hash[2..]
    ensures |hash| >= 1 && hash[0] == '#' && (|hash| == 1 || hash[1] != '/') ==> LookupKey(hash) == hash[1..]
    ensures |hash| >= 1 && hash[0] == '/' ==> LookupKey(hash) == hash[1..]
    ensures (|hash| == 0 || (hash[0] != '#' && hash[0] != '/')) ==> LookupKey(hash) == hash
  {
  }

  // ---------------------------------------------------------------------
  // The flattened sidebar
  // ---------------------------------------------------------------------

  /** JavaScript truthiness of the section's `link`: present and not empty. */
  predicate HasLink(s: Section) {
    s.link.Some? && s.link.value != ""
  }

  /** Line 49: a section with a link gets the one item `{title, link}` in place of its items. */
  function Normalized(s: Section): (r: Section)
    ensures HasLink(s) ==> r.items == [Item(s.title, s.link.value)]
    ensures !HasLink(s) ==> r == s
    ensures r.title == s.title && r.link == s.link
  {
    if HasLink(s) then s.(items := [Item(s.title, s.link.value)]) else s
  }

  /** The items `getPath` visits, section by section, item by item. */
  function Flatten(sections: seq<Section>): seq<Item> {
    if sections == [] then []
    else Flatten(sections[..|sections| - 1]) + Normalized(sections[|sections| - 1]).items
  }

  lemma {:induction false} FlattenConcat(a: seq<Section>, b: seq<Section>)
    ensures Flatten(a + b) == Flatten(a) + Flatten(b)
    decreases |b|
  {
    if b == [] {
      assert a + b == a;
    } else {
      var b' := b[..|b| - 1];
      assert (a + b)[..|a + b| - 1] == a + b';
      assert (a + b)[|a + b| - 1] == b[|b| - 1];
      FlattenConcat(a, b');
      assert Flatten(b) == Flatten(b') + Normalized(b[|b| - 1]).items;
    }
  }

  /** Rewriting sections to their normal form leaves the visited items as they were. */
  lemma {:induction false} FlattenSameNormalForms(a: seq<Section>, b: seq<Section>)
    requires |a| == |b|
    requires forall k :: 0 <= k < |a| ==> Normalized(a[k]) == Normalized(b[k])
    ensures Flatten(a) == Flatten(b)
    decreases |a|
  {
    if a != [] {
      FlattenSameNormalForms(a[..|a| - 1], b[..|b| - 1]);
    }
  }

  /** A section with a link contributes exactly `{title, link}`; one without, its own items. */
  lemma FlattenSection(before: seq<Section>, s: Section)
    ensures HasLink(s) ==> Flatten(before + [s]) == Flatten(before) + [Item(s.title, s.link.value)]
    ensures !HasLink(s) ==> Flatten(before + [s]) == Flatten(before) + s.items
  {
    assert (before + [s])[..|before|] == before;
  }

  // ---------------------------------------------------------------------
  // The scan of `getPath`
  // ---------------------------------------------------------------------

  /** The locals of `getPath`; `next` set means the scan has returned. */
  datatype ScanState = ScanState(prevew: Option<Item>, item: Option<Item>, next: Option<Item>)

  /** One turn of the inner loop, for the item `x`. */
  function Step(st: ScanState, x: Item, key: string): ScanState {
    if st.next.Some? then st
    else if x.link == key then st.(item := Some(x))
    else if st.item.None? then st.(prevew := Some(x))
    else st.(next := Some(x))
  }

  /** The scan over the visited items, left to right. */
  function Scan(xs: seq<Item>, key: string): ScanState {
    if xs == [] then ScanState(None, None, None)
    else Step(Scan(xs[..|xs| - 1], key), xs[|xs| - 1], key)
  }

  lemma ScanSnoc(xs: seq<Item>, x: Item, key: string)
    ensures Scan(xs + [x], key) == Step(Scan(xs, key), x, key)
  {
    assert (xs + [x])[..|xs|] == xs;
  }

  /** Once `next` is set the scan has returned: later items change nothing. */
  lemma {:induction false} ScanStops(xs: seq<Item>, ys: seq<Item>, key: string)
    requires Scan(xs, key).next.Some?
    ensures Scan(xs + ys, key) == Scan(xs, key)
    decreases |ys|
  {
    if ys == [] {
      assert xs + ys == xs;
    } else {
      var ys' := ys[..|ys| - 1];
      ScanStops(xs, ys', key);
      assert xs + ys == (xs + ys') + [ys[|ys| - 1]];
      ScanSnoc(xs + ys', ys[|ys| - 1], key);
    }
  }

  /** With no match, `prevew` is the last item and nothing else is set. */
  lemma {:induction false} ScanNoMatch(xs: seq<Item>, key: string)
    requires forall i :: 0 <= i < |xs| ==> xs[i].link != key
    ensures Scan(xs, key) == ScanState(if xs == [] then None else Some(xs[|xs| - 1]), None, None)
    decreases |xs|
  {
    if xs != [] {
      ScanNoMatch(xs[..|xs| - 1], key);
    }
  }

  /** After a match, `prevew` is frozen and `item` stays set. */
  lemma {:induction false} ScanAfterMatch(xs: seq<Item>, ys: seq<Item>, key: string)
    requires Scan(xs, key).item.Some?
    ensures Scan(xs + ys, key).prevew == Scan(xs, key).prevew
    ensures Scan(xs + ys, key).item.Some?
    decreases |ys|
  {
    if ys == [] {
      assert xs + ys == xs;
    } else {
      var ys' := ys[..|ys| - 1];
      ScanAfterMatch(xs, ys', key);
      assert xs + ys == (xs + ys') + [ys[|ys| - 1]];
      ScanSnoc(xs + ys', ys[|ys| - 1], key);
    }
  }

  /** After a match, further matching items set nothing. */
  lemma {:induction false} ScanOverMatches(xs: seq<Item>, ys: seq<Item>, key: string)
    requires Scan(xs, key).item.Some? && Scan(xs, key).next.None?
    requires forall i :: 0 <= i < |ys| ==> ys[i].link == key
    ensures Scan(xs + ys, key).item.Some? && Scan(xs + ys, key).next.None?
    decreases |ys|
  {
    if ys == [] {
      assert xs + ys == xs;
    } else {
      var ys' := ys[..|ys| - 1];
      ScanOverMatches(xs, ys', key);
      assert xs + ys == (xs + ys') + [ys[|ys| - 1]];
      ScanSnoc(xs + ys', ys[|ys| - 1], key);
    }
  }

  /** The state right after the first match at index `k`. */
  lemma ScanAtFirstMatch(xs: seq<Item>, key: string, k: nat)
    requires k < |xs| && xs[k].link == key
    requires forall i :: 0 <= i < k ==> xs[i].link != key
    ensures Scan(xs[..k + 1], key) == ScanState(if k == 0 then None else Some(xs[k - 1]), Some(xs[k]), None)
  {
    ScanNoMatch(xs[..k], key);
    assert xs[..k + 1] == xs[..k] + [xs[k]];
    ScanSnoc(xs[..k], xs[k], key);
  }

  /** With the first match at `k`, `prevew` is item `k - 1`, or none when `k` is 0. */
  lemma ScanPrevew(xs: seq<Item>, key: string, k: nat)
    requires k < |xs| && xs[k].link == key
    requires forall i :: 0 <= i < k ==> xs[i].link != key
    ensures Scan(xs, key).prevew == if k == 0 then None else Some(xs[k - 1])
  {
    ScanAtFirstMatch(xs, key, k);
    assert xs == xs[..k + 1] + xs[k + 1..];
    ScanAfterMatch(xs[..k + 1], xs[k + 1..], key);
  }

  /** With the first match at `k`, `next` is the first later item whose link differs from the key. */
  lemma ScanNext(xs: seq<Item>, key: string, k: nat, m: nat)
    requires k < m < |xs| && xs[k].link == key && xs[m].link != key
    requires forall i :: 0 <= i < k ==> xs[i].link != key
    requires forall i :: k < i < m ==> xs[i].link == key
    ensures Scan(xs, key).next == Some(xs[m])
  {
    ScanAtFirstMatch(xs, key, k);
    assert xs[..m] == xs[..k + 1] + xs[k + 1..m];
    ScanOverMatches(xs[..k + 1], xs[k + 1..m], key);
    assert xs[..m + 1] == xs[..m] + [xs[m]];
    ScanSnoc(xs[..m], xs[m], key);
    assert xs == xs[..m + 1] + xs[m + 1..];
    ScanStops(xs[..m + 1], xs[m + 1..], key);
  }

  /** With the first match at `k` and only matching items after it, `next` is none. */
  lemma ScanNoNext(xs: seq<Item>, key: string, k: nat)
    requires k < |xs| && xs[k].link == key
    requires forall i :: 0 <= i < k ==> xs[i].link != key
    requires forall i :: k < i < |xs| ==> xs[i].link == key
    ensures Scan(xs, key).next.None?
  {
    ScanAtFirstMatch(xs, key, k);
    assert xs == xs[..k + 1] + xs[k + 1..];
    ScanOverMatches(xs[..k + 1], xs[k + 1..], key);
  }

  /** Whatever the scan returns is one of the visited items. */
  lemma {:induction false} ScanMembers(xs: seq<Item>, key: string)
    ensures Scan(xs, key).prevew.Some? ==> Scan(xs, key).prevew.value in xs
    ensures Scan(xs, key).next.Some? ==> Scan(xs, key).next.value in xs
    decreases |xs|
  {
    if xs != [] {
      ScanMembers(xs[..|xs| - 1], key);
      assert forall x :: x in xs[..|xs| - 1] ==> x in xs;
    }
  }

  /** Every section is as it was, or rewritten to its normal form. */
  predicate KeptOrNormalized(before: seq<Section>, after: seq<Section>) {
    |after| == |before| &&
    forall k :: 0 <= k < |after| ==> after[k] == before[k] || after[k] == Normalized(before[k])
  }

  /** The sections before `n` are rewritten to their normal form, the others untouched. */
  predicate RewrittenUpTo(before: seq<Section>, now: seq<Section>, n: nat) {
    |now| == |before| && n <= |now| &&
    (forall k :: 0 <= k < n ==> now[k] == Normalized(before[k])) &&
    (forall k :: n <= k < |now| ==> now[k] == before[k])
  }

  /**
   * `getPath` on the sidebar array: visits the items of the normalised sections in
   * order and rewrites, in place, every section it reaches.
   */
  method GetPath(sidebar: array<Section>, hash: string) returns (prevew: Option<Item>, next: Option<Item>)
    modifies sidebar
    ensures prevew == Scan(Flatten(old(sidebar[..])), LookupKey(hash)).prevew
    ensures next == Scan(Flatten(old(sidebar[..])), LookupKey(hash)).next
    ensures KeptOrNormalized(old(sidebar[..]), sidebar[..])
    ensures Flatten(sidebar[..]) == Flatten(old(sidebar[..]))
  {
    ghost var sections := sidebar[..];
    var url := LookupKey(hash);
    prevew, next := None, None;
    var item: Option<Item> := None;
    var i := 0;
    while i < sidebar.Length
      invariant 0 <= i <= sidebar.Length
      invariant RewrittenUpTo(sections, sidebar[..], i)
      invariant ScanState(prevew, item, next) == Scan(Flatten(sections[..i]), url)
      invariant next.None?
    {
      ghost var now := sidebar[..];
      var section := sidebar[i];
      if HasLink(section) {
        section := section.(items := [Item(section.title, section.link.value)]);
        sidebar[i] := section;
      }
      assert sidebar[..] == now[i := section];
      RewriteOne(sections, now, i);
      FlattenStep(sections, i);
      prevew, item, next := ScanItems(Flatten(sections[..i]), section.items, url, prevew, item);
      if next.Some? {
        ReturnedEarly(sections, i, url);
        NormalFormsKept(sections, sidebar[..], i + 1);
        return prevew, next;
      }
      i := i + 1;
    }
    assert sections[..i] == sections;
    NormalFormsKept(sections, sidebar[..], i);
  }

  /** Rewriting section `n` extends the rewritten prefix by one. */
  lemma RewriteOne(before: seq<Section>, now: seq<Section>, n: nat)
    requires RewrittenUpTo(before, now, n) && n < |now|
    ensures now[n] == before[n]
    ensures RewrittenUpTo(before, now[n := Normalized(before[n])], n + 1)
  {
  }

  /** A scan that has returned within section `i` is the scan of the whole sidebar. */
  lemma ReturnedEarly(sections: seq<Section>, i: nat, url: string)
    requires i < |sections|
    requires Scan(Flatten(sections[..i + 1]), url).next.Some?
    ensures Scan(Flatten(sections), url) == Scan(Flatten(sections[..i + 1]), url)
  {
    FlattenSplit(sections, i + 1);
    ScanStops(Flatten(sections[..i + 1]), Flatten(sections[i + 1..]), url);
  }

  lemma FlattenSplit(sections: seq<Section>, n: nat)
    requires n <= |sections|
    ensures Flatten(sections) == Flatten(sections[..n]) + Flatten(sections[n..])
  {
    assert sections == sections[..n] + sections[n..];
    FlattenConcat(sections[..n], sections[n..]);
  }

  /** The items of the sections before `i`, then those of section `i`. */
  lemma FlattenStep(sections: seq<Section>, i: nat)
    requires i < |sections|
    ensures Flatten(sections[..i + 1]) == Flatten(sections[..i]) + Normalized(sections[i]).items
  {
    assert sections[..i + 1][..i] == sections[..i];
  }

  /**
   * The inner loop of `getPath` over one section's items, from the state the
   * items `seen` before them left; it stops at the first `next`.
   */
  method ScanItems(ghost seen: seq<Item>, items: seq<Item>, url: string, prevew0: Option<Item>, item0: Option<Item>)
    returns (prevew: Option<Item>, item: Option<Item>, next: Option<Item>)
    requires Scan(seen, url) == ScanState(prevew0, item0, None)
    ensures ScanState(prevew, item, next) == Scan(seen + items, url)
  {
    prevew, item, next := prevew0, item0, None;
    assert seen + items[..0] == seen;
    for j := 0 to |items|
      invariant ScanState(prevew, item, next) == Scan(seen + items[..j], url)
      invariant next.None?
    {
      var it := items[j];
      ScanOneMore(seen, items, j, url);
      if it.link == url {
        item := Some(it);
        continue;
      }
      if item.None? {
        prevew := Some(it);
      } else {
        next := Some(it);
        ScanStopsWithin(seen, items, j, url);
        return;
      }
    }
    assert items[..|items|] == items;
  }

  lemma ScanOneMore(seen: seq<Item>, items: seq<Item>, j: nat, url: string)
    requires j < |items|
    ensures Scan(seen + items[..j + 1], url) == Step(Scan(seen + items[..j], url), items[j], url)
  {
    assert seen + items[..j + 1] == (seen + items[..j]) + [items[j]];
    ScanSnoc(seen + items[..j], items[j], url);
  }

  lemma ScanStopsWithin(seen: seq<Item>, items: seq<Item>, j: nat, url: string)
    requires j < |items| && Scan(seen + items[..j + 1], url).next.Some?
    ensures Scan(seen + items, url) == Scan(seen + items[..j + 1], url)
  {
    var zs := seen + items;
    assert zs[..|seen| + j + 1] == seen + items[..j + 1];
    ScanPrefixStops(zs, |seen| + j + 1, url);
  }

  lemma ScanPrefixStops(zs: seq<Item>, n: nat, key: string)
    requires n <= |zs| && Scan(zs[..n], key).next.Some?
    ensures Scan(zs, key) == Scan(zs[..n], key)
  {
    assert zs == zs[..n] + zs[n..];
    ScanStops(zs[..n], zs[n..], key);
  }

  /** Sections rewritten up to `n` and untouched after it flatten as before. */
  lemma NormalFormsKept(sections: seq<Section>, now: seq<Section>, n: nat)
    requires RewrittenUpTo(sections, now, n)
    ensures KeptOrNormalized(sections, now)
    ensures Flatten(now) == Flatten(sections)
  {
    FlattenSameNormalForms(now, sections);
  }
}
