/**
 The page grammar of RFC 3533, sections 4 to 6, stated on its own, and the proof that the
 validator decides it: a file is clean exactly when it is in the grammar.
 */
module Grammar {
  import opened Bytes
  import opened Pages
  import opened Segments

  // ----- the grammar -----

  /** The pages of `ps` carrying serial `s`, in order. */
  function Proj(ps: seq<Page>, s: u32): seq<Page>
  {
    if ps == [] then []
    else
      var front, last := ps[..|ps| - 1], ps[|ps| - 1];
      Proj(front, s) + if last.serial == s then [last] else []
  }

  /** What section 6 asks of page `i` of a logical bitstream, given the page before it. */
  predicate PageRule(q: seq<Page>, i: nat)
    requires i < |q|
  {
    var p := q[i];
    && (IsFirst(p) <==> i == 0)
    && p.seqNo == i % TWO32
    && (IsContinued(p) <==> i > 0 && EndsOpen(q[i - 1].lacing))
    && (p.lacing != [] ==> (p.granule == -1 <==> !Completes(p.lacing)))
    && (IsLast(p) ==> !EndsOpen(p.lacing))
  }

  /** Granule positions never go back over the pages that complete packets. */
  predicate Monotone(q: seq<Page>)
  {
    forall i, j :: 0 <= i < j < |q| && Completes(q[i].lacing) && Completes(q[j].lacing) ==> q[i].granule <= q[j].granule
  }

  /** One complete logical bitstream. */
  predicate Stream(q: seq<Page>)
  {
    && q != []
    && (forall i :: 0 <= i < |q| ==> PageRule(q, i))
    && (forall i :: 0 <= i < |q| ==> (IsLast(q[i]) <==> i == |q| - 1))
    && Monotone(q)
  }

  /** The BOS pages of a link come together, ahead of all its other pages. */
  predicate BosFirst(link: seq<Page>)
  {
    && link != []
    && IsFirst(link[0])
    && forall i, j :: 0 <= i < j < |link| && IsFirst(link[j]) ==> IsFirst(link[i])
  }

  predicate Occurs(ps: seq<Page>, s: u32) { exists i :: 0 <= i < |ps| && ps[i].serial == s }

  /** `ps` is the chain of `links`, no serial of which reappears in another link. */
  ghost predicate Chain(links: seq<seq<Page>>, ps: seq<Page>)
  {
    && Flatten(links) == ps
    && (forall a :: 0 <= a < |links| ==> BosFirst(links[a]))
    && (forall a, b :: 0 <= a < b < |links| ==> NoSharedSerial(links[a], links[b]))
  }

  ghost predicate NoSharedSerial(x: seq<Page>, y: seq<Page>) { forall s :: Occurs(x, s) ==> !Occurs(y, s) }

  /** A physical bitstream: non-empty, well-formed streams, grouped and chained as section 4 asks. */
  ghost predicate Physical(ps: seq<Page>)
  {
    && ps != []
    && (forall s :: Occurs(ps, s) ==> Stream(Proj(ps, s)))
    && (exists links :: Chain(links, ps))
  }

  // ----- the same, one page at a time -----

  function LastGranule(q: seq<Page>): Option<i64>
  {
    if q == [] then None
    else
      var last := q[|q| - 1];
      if Completes(last.lacing) && last.granule != -1 then Some(last.granule) else LastGranule(q[..|q| - 1])
  }

  /** `p` goes on where the pages `q` of its stream stop, whatever its granule. */
  predicate Continues(q: seq<Page>, p: Page)
  {
    && (if q == [] then IsFirst(p) && !IsContinued(p) && p.seqNo == 0
        else
          var last := q[|q| - 1];
          && !IsFirst(p)
          && !IsLast(last)
          && p.seqNo == NextU32(last.seqNo)
          && IsContinued(p) == EndsOpen(last.lacing))
    && (IsLast(p) ==> !EndsOpen(p.lacing))
  }

  /** The granule of `p` says whether a packet ends on it, and is no step back. */
  predicate GranuleRule(q: seq<Page>, p: Page)
  {
    && (p.lacing != [] ==> (p.granule == -1 <==> !Completes(p.lacing)))
    && (Completes(p.lacing) && LastGranule(q).Some? ==> LastGranule(q).value <= p.granule)
  }

  /** `p` may follow the pages `q` of its stream. */
  predicate MayFollow(q: seq<Page>, p: Page) { Continues(q, p) && GranuleRule(q, p) }

  predicate Prefix(q: seq<Page>)
  {
    q == [] || (Prefix(q[..|q| - 1]) && MayFollow(q[..|q| - 1], q[|q| - 1]))
  }

  /** The same, granules aside. */
  predicate Unbroken(q: seq<Page>)
  {
    q == [] || (Unbroken(q[..|q| - 1]) && Continues(q[..|q| - 1], q[|q| - 1]))
  }

  predicate Closed(q: seq<Page>) { q != [] && IsLast(q[|q| - 1]) }

  predicate DataBegun(ps: seq<Page>) { ps != [] && !IsFirst(ps[|ps| - 1]) }

  /** A BOS page after data pages opens a link, which every earlier stream must have left. */
  ghost predicate LinkRule(ps: seq<Page>, p: Page)
  {
    IsFirst(p) && DataBegun(ps) ==> forall s :: Proj(ps, s) != [] ==> Closed(Proj(ps, s))
  }

  ghost predicate Accepts(ps: seq<Page>, p: Page) { MayFollow(Proj(ps, p.serial), p) && LinkRule(ps, p) }

  ghost predicate Conforms(ps: seq<Page>)
  {
    ps == [] || (Conforms(ps[..|ps| - 1]) && Accepts(ps[..|ps| - 1], ps[|ps| - 1]))
  }

  /** The same, granules aside. */
  ghost predicate Admits(ps: seq<Page>, p: Page) { Continues(Proj(ps, p.serial), p) && LinkRule(ps, p) }

  ghost predicate Orderly(ps: seq<Page>)
  {
    ps == [] || (Orderly(ps[..|ps| - 1]) && Admits(ps[..|ps| - 1], ps[|ps| - 1]))
  }

  // ----- projections -----

  lemma ProjSnoc(ps: seq<Page>, p: Page, s: u32)
    ensures Proj(ps + [p], s) == Proj(ps, s) + if p.serial == s then [p] else []
  {
    UnSnoc(ps, p);
  }

  lemma {:induction false} ProjConcat(a: seq<Page>, b: seq<Page>, s: u32)
    ensures Proj(a + b, s) == Proj(a, s) + Proj(b, s)
  {
    if b == [] {
      assert a + b == a;
    } else {
      ConcatFront(a, b);
      ProjConcat(a, b[..|b| - 1], s);
      Assoc(Proj(a, s), Proj(b[..|b| - 1], s), if b[|b| - 1].serial == s then [b[|b| - 1]] else []);
    }
  }

  lemma {:induction false} ProjSerial(ps: seq<Page>, s: u32)
    ensures forall i :: 0 <= i < |Proj(ps, s)| ==> Proj(ps, s)[i].serial == s && Proj(ps, s)[i] in ps
    ensures Proj(ps, s) != [] <==> Occurs(ps, s)
  {
    if ps != [] {
      var front, last := ps[..|ps| - 1], ps[|ps| - 1];
      ProjSerial(front, s);
      assert ps == front + [last];
      if Occurs(front, s) {
        var i :| 0 <= i < |front| && front[i].serial == s;
        assert ps[i].serial == s;
      }
      if Occurs(ps, s) && last.serial != s {
        var i :| 0 <= i < |ps| && ps[i].serial == s;
        assert front[i].serial == s;
      }
    }
  }

  // ----- one stream: the stepwise form says the same -----

  /** `Stream` without its last page's EOS. */
  predicate OpenStream(q: seq<Page>)
  {
    && (forall i :: 0 <= i < |q| ==> PageRule(q, i))
    && (forall i :: 0 <= i < |q| - 1 ==> !IsLast(q[i]))
    && Monotone(q)
  }

  lemma StreamIsClosed(q: seq<Page>)
    ensures Stream(q) <==> OpenStream(q) && Closed(q)
  {}

  predicate Stamps(p: Page) { p.lacing != [] ==> (p.granule == -1 <==> !Completes(p.lacing)) }

  /** The index of the last page completing a packet, or -1. */
  function LastCompleting(q: seq<Page>): (k: int)
    ensures -1 <= k < |q|
    ensures k >= 0 ==> Completes(q[k].lacing)
    ensures forall j :: k < j < |q| ==> !Completes(q[j].lacing)
  {
    if q == [] then -1
    else if Completes(q[|q| - 1].lacing) then |q| - 1
    else LastCompleting(q[..|q| - 1])
  }

  /** The granule carried forward is that of the last page completing a packet. */
  lemma {:induction false} LastGranuleMeaning(q: seq<Page>)
    requires forall i :: 0 <= i < |q| ==> Stamps(q[i])
    ensures var k := LastCompleting(q); LastGranule(q) == if k < 0 then None else Some(q[k].granule)
  {
    if q != [] {
      var front, last := q[..|q| - 1], q[|q| - 1];
      LastGranuleMeaning(front);
      assert Stamps(last);
    }
  }

  lemma ModStep(n: nat)
    ensures NextU32(n % TWO32) == (n + 1) % TWO32
  {}

  lemma RuleOfFront(q: seq<Page>, n: nat, i: nat)
    requires i < n <= |q|
    ensures PageRule(q, i) == PageRule(q[..n], i)
  {}

  /** For the page after a run of good ones, the stepwise rule is the indexed one. */
  lemma MayFollowMeaning(q: seq<Page>, p: Page)
    requires OpenStream(q)
    ensures MayFollow(q, p) <==> PageRule(q + [p], |q|) && (q != [] ==> !IsLast(q[|q| - 1])) && Monotone(q + [p])
  {
    var r := q + [p];
    forall i | 0 <= i < |q|
      ensures Stamps(q[i])
    {
      assert PageRule(q, i);
    }
    LastGranuleMeaning(q);
    if q != [] {
      ModStep(|q| - 1);
      assert PageRule(q, |q| - 1);
    }
    MonotoneSnoc(q, p);
  }

  lemma MonotoneSnoc(q: seq<Page>, p: Page)
    requires Monotone(q)
    ensures var k := LastCompleting(q);
            Monotone(q + [p]) <==> k < 0 || !Completes(p.lacing) || q[k].granule <= p.granule
  {
    var k := LastCompleting(q);
    var r := q + [p];
    if k < 0 || !Completes(p.lacing) || q[k].granule <= p.granule {
      forall i, j | 0 <= i < j < |r| && Completes(r[i].lacing) && Completes(r[j].lacing)
        ensures r[i].granule <= r[j].granule
      {
        assert r[i] == q[i];
        if j == |q| {
          assert i <= k;
        }
      }
    } else {
      assert r[k] == q[k] && r[|q|] == p;
    }
  }

  lemma FrontIsOpen(q: seq<Page>, p: Page)
    requires OpenStream(q + [p])
    ensures OpenStream(q)
  {
    var r := q + [p];
    assert r[..|q|] == q;
    forall i | 0 <= i < |q|
      ensures PageRule(q, i)
    {
      RuleOfFront(r, |q|, i);
    }
    forall i | 0 <= i < |q| - 1
      ensures !IsLast(q[i])
    {
      assert r[i] == q[i];
    }
    forall i, j | 0 <= i < j < |q| && Completes(q[i].lacing) && Completes(q[j].lacing)
      ensures q[i].granule <= q[j].granule
    {
      assert r[i] == q[i] && r[j] == q[j];
    }
  }

  lemma ExtendOpen(q: seq<Page>, p: Page)
    requires OpenStream(q) && MayFollow(q, p)
    ensures OpenStream(q + [p])
  {
    var r := q + [p];
    assert r[..|q|] == q;
    MayFollowMeaning(q, p);
    forall i | 0 <= i < |r|
      ensures PageRule(r, i)
    {
      if i < |q| {
        RuleOfFront(r, |q|, i);
      }
    }
    forall i | 0 <= i < |r| - 1
      ensures !IsLast(r[i])
    {
      assert r[i] == q[i];
    }
  }

  lemma OpenStreamSnoc(q: seq<Page>, p: Page)
    ensures OpenStream(q + [p]) <==> OpenStream(q) && MayFollow(q, p)
  {
    if OpenStream(q + [p]) {
      FrontIsOpen(q, p);
      MayFollowMeaning(q, p);
      assert PageRule(q + [p], |q|);
      if q != [] {
        assert (q + [p])[|q| - 1] == q[|q| - 1];
      }
    } else if OpenStream(q) && MayFollow(q, p) {
      ExtendOpen(q, p);
    }
  }

  lemma {:induction false} PrefixIsOpenStream(q: seq<Page>)
    ensures Prefix(q) <==> OpenStream(q)
  {
    if q != [] {
      var front := q[..|q| - 1];
      assert q == front + [q[|q| - 1]];
      PrefixIsOpenStream(front);
      OpenStreamSnoc(front, q[|q| - 1]);
    }
  }

  lemma PrefixSnoc(q: seq<Page>, p: Page)
    ensures Prefix(q + [p]) <==> Prefix(q) && MayFollow(q, p)
  {
    UnSnoc(q, p);
  }

  lemma {:induction false} PrefixOfPrefix(q: seq<Page>, n: nat)
    requires Prefix(q) && n <= |q|
    ensures Prefix(q[..n])
  {
    if n < |q| {
      PrefixOfPrefix(q[..|q| - 1], n);
      assert q[..|q| - 1][..n] == q[..n];
    } else {
      assert q[..n] == q;
    }
  }

  lemma UnbrokenSnoc(q: seq<Page>, p: Page)
    ensures Unbroken(q + [p]) <==> Unbroken(q) && Continues(q, p)
  {
    UnSnoc(q, p);
  }

  lemma {:induction false} UnbrokenOfPrefix(q: seq<Page>, n: nat)
    requires Unbroken(q) && n <= |q|
    ensures Unbroken(q[..n])
  {
    if n < |q| {
      UnbrokenOfPrefix(q[..|q| - 1], n);
      assert q[..|q| - 1][..n] == q[..n];
    } else {
      assert q[..n] == q;
    }
  }

  /** What an unbroken run of pages looks like at each of them. */
  lemma {:induction false} UnbrokenAt(q: seq<Page>, i: nat)
    requires Unbroken(q) && i < |q|
    ensures Continues(q[..i], q[i])
  {
    if i < |q| - 1 {
      UnbrokenAt(q[..|q| - 1], i);
      assert q[..|q| - 1][..i] == q[..i];
    }
  }

  lemma {:induction false} PrefixIsUnbroken(q: seq<Page>)
    requires Prefix(q)
    ensures Unbroken(q)
  {
    if q != [] {
      PrefixIsUnbroken(q[..|q| - 1]);
    }
  }

  // ----- links -----

  predicate OpensLink(ps: seq<Page>, p: Page) { ps == [] || (IsFirst(p) && DataBegun(ps)) }

  /** Cut `ps` before every BOS page that follows a data page. */
  function Links(ps: seq<Page>): (r: seq<seq<Page>>)
    ensures ps != [] <==> r != []
  {
    if ps == [] then []
    else
      var front, last := ps[..|ps| - 1], ps[|ps| - 1];
      var before := Links(front);
      if OpensLink(front, last) then before + [[last]]
      else before[..|before| - 1] + [before[|before| - 1] + [last]]
  }

  lemma OccursSnoc(ps: seq<Page>, p: Page, s: u32)
    ensures Occurs(ps + [p], s) <==> Occurs(ps, s) || p.serial == s
  {
    ProjSnoc(ps, p, s);
    ProjSerial(ps, s);
    ProjSerial(ps + [p], s);
  }

  lemma {:induction false} LinksFlatten(ps: seq<Page>)
    ensures Flatten(Links(ps)) == ps
    ensures ps != [] ==> var l := Links(ps)[|Links(ps)| - 1]; l != [] && l[|l| - 1] == ps[|ps| - 1]
  {
    if ps != [] {
      var front, last := ps[..|ps| - 1], ps[|ps| - 1];
      var before := Links(front);
      LinksFlatten(front);
      assert ps == front + [last];
      if OpensLink(front, last) {
        FlattenSnoc(before, [last]);
      } else {
        var m := |before| - 1;
        FlattenSnoc(before[..m], before[m]);
        FlattenSnoc(before[..m], before[m] + [last]);
        assert before == before[..m] + [before[m]];
        Assoc(Flatten(before[..m]), before[m], [last]);
      }
    }
  }

  ghost predicate Ended(link: seq<Page>, ps: seq<Page>) { forall s :: Occurs(link, s) ==> Closed(Proj(ps, s)) }

  ghost predicate Seen(link: seq<Page>, ps: seq<Page>) { forall s :: Occurs(link, s) ==> Proj(ps, s) != [] }

  /** Streams of links that are over have ended, and never come back. */
  ghost predicate Retired(links: seq<seq<Page>>, ps: seq<Page>)
  {
    && (forall a :: 0 <= a < |links| ==> BosFirst(links[a]) && Seen(links[a], ps))
    && (forall a :: 0 <= a < |links| - 1 ==> Ended(links[a], ps))
    && (forall a, b :: 0 <= a < b < |links| ==> NoSharedSerial(links[a], links[b]))
  }

  /** A page of a serial new to a link leaves what is known of the link as it was. */
  lemma SnocElsewhere(link: seq<Page>, ps: seq<Page>, p: Page)
    requires Seen(link, ps) && !Occurs(link, p.serial)
    ensures Seen(link, ps + [p])
    ensures Ended(link, ps) ==> Ended(link, ps + [p])
  {
    forall s | Occurs(link, s)
      ensures Proj(ps + [p], s) == Proj(ps, s)
    {
      ProjSnoc(ps, p, s);
    }
  }

  lemma SnocSeen(link: seq<Page>, ps: seq<Page>, p: Page)
    requires Seen(link, ps)
    ensures Seen(link + [p], ps + [p])
  {
    forall s | Occurs(link + [p], s)
      ensures Proj(ps + [p], s) != []
    {
      OccursSnoc(link, p, s);
      ProjSnoc(ps, p, s);
    }
  }

  lemma SnocUnshared(x: seq<Page>, y: seq<Page>, p: Page)
    requires NoSharedSerial(x, y) && !Occurs(x, p.serial)
    ensures NoSharedSerial(x, y + [p])
  {
    forall s | Occurs(x, s)
      ensures !Occurs(y + [p], s)
    {
      OccursSnoc(y, p, s);
    }
  }

  lemma SnocBosFirst(link: seq<Page>, p: Page)
    requires BosFirst(link) && (IsFirst(p) ==> IsFirst(link[|link| - 1]))
    ensures BosFirst(link + [p])
  {
    var r := link + [p];
    forall i, j | 0 <= i < j < |r| && IsFirst(r[j])
      ensures IsFirst(r[i])
    {
      assert r[i] == link[i];
    }
  }

  lemma RetiredNewLink(links: seq<seq<Page>>, ps: seq<Page>, p: Page)
    requires Retired(links, ps) && Admits(ps, p) && OpensLink(ps, p)
    requires links != [] <==> ps != []
    ensures Retired(links + [[p]], ps + [p])
  {
    var r := links + [[p]];
    assert Seen([], ps);
    SnocSeen([], ps, p);
    assert [] + [p] == [p];
    forall a | 0 <= a < |links|
      ensures r[a] == links[a] && Seen(r[a], ps + [p]) && Ended(r[a], ps + [p]) && NoSharedSerial(r[a], [p])
    {
      assert !Occurs(links[a], p.serial);
      assert Ended(links[a], ps);
      SnocElsewhere(links[a], ps, p);
      SnocUnshared(links[a], [], p);
    }
  }

  lemma RetiredSameLink(links: seq<seq<Page>>, ps: seq<Page>, p: Page)
    requires Retired(links, ps) && Admits(ps, p) && !OpensLink(ps, p)
    requires links != [] && ps != []
    requires var l := links[|links| - 1]; l != [] && l[|l| - 1] == ps[|ps| - 1]
    ensures Retired(links[..|links| - 1] + [links[|links| - 1] + [p]], ps + [p])
  {
    var m := |links| - 1;
    var l := links[m];
    var r := links[..m] + [l + [p]];
    SnocBosFirst(l, p);
    SnocSeen(l, ps, p);
    forall a | 0 <= a < m
      ensures r[a] == links[a] && Seen(r[a], ps + [p]) && Ended(r[a], ps + [p]) && NoSharedSerial(r[a], l + [p])
    {
      assert !Occurs(links[a], p.serial) by {
        assert Ended(links[a], ps) && Seen(links[a], ps);
      }
      SnocElsewhere(links[a], ps, p);
      assert NoSharedSerial(links[a], links[m]);
      SnocUnshared(links[a], l, p);
    }
  }

  lemma {:induction false} RunIsChained(ps: seq<Page>)
    requires Orderly(ps)
    ensures Retired(Links(ps), ps)
  {
    if ps != [] {
      var front, last := ps[..|ps| - 1], ps[|ps| - 1];
      RunIsChained(front);
      LinksFlatten(front);
      assert ps == front + [last];
      if OpensLink(front, last) {
        RetiredNewLink(Links(front), front, last);
      } else {
        RetiredSameLink(Links(front), front, last);
      }
    }
  }

  lemma {:induction false} RunProjections(ps: seq<Page>, s: u32)
    requires Conforms(ps)
    ensures Prefix(Proj(ps, s))
  {
    if ps != [] {
      var front, last := ps[..|ps| - 1], ps[|ps| - 1];
      RunProjections(front, s);
      if last.serial == s {
        assert Accepts(front, last);
        PrefixSnoc(Proj(front, s), last);
      } else {
        assert Proj(ps, s) == Proj(front, s);
      }
    }
  }

  lemma OrderlySnoc(ps: seq<Page>, p: Page)
    ensures Orderly(ps + [p]) <==> Orderly(ps) && Admits(ps, p)
  {
    UnSnoc(ps, p);
  }

  lemma {:induction false} OrderlyProjections(ps: seq<Page>, s: u32)
    requires Orderly(ps)
    ensures Unbroken(Proj(ps, s))
  {
    if ps != [] {
      var front, last := ps[..|ps| - 1], ps[|ps| - 1];
      OrderlyProjections(front, s);
      if last.serial == s {
        assert Admits(front, last);
        UnbrokenSnoc(Proj(front, s), last);
      } else {
        assert Proj(ps, s) == Proj(front, s);
      }
    }
  }

  lemma PrefixOfProj(ps: seq<Page>, p: Page, s: u32)
    requires Prefix(Proj(ps + [p], s))
    ensures Prefix(Proj(ps, s)) && (p.serial == s ==> MayFollow(Proj(ps, s), p))
  {
    ProjSnoc(ps, p, s);
    if p.serial == s {
      PrefixSnoc(Proj(ps, s), p);
    } else {
      PlusNil(Proj(ps, s));
    }
  }

  lemma {:induction false} ConformsIsOrderly(ps: seq<Page>)
    requires Conforms(ps)
    ensures Orderly(ps)
  {
    if ps != [] {
      ConformsIsOrderly(ps[..|ps| - 1]);
    }
  }

  ghost predicate AllPrefixes(ps: seq<Page>) { forall s: u32 :: Prefix(Proj(ps, s)) }

  lemma {:induction false} OrderlyConforms(ps: seq<Page>)
    requires Orderly(ps) && AllPrefixes(ps)
    ensures Conforms(ps)
  {
    if ps != [] {
      var front, last := ps[..|ps| - 1], ps[|ps| - 1];
      SplitLast(ps);
      forall s: u32
        ensures Prefix(Proj(front, s))
      {
        PrefixOfProj(front, last, s);
      }
      OrderlyConforms(front);
      PrefixOfProj(front, last, last.serial);
    }
  }

  /** A run conforms exactly when it is in order and every stream of it obeys the granule rules too. */
  lemma ConformsMeans(ps: seq<Page>)
    ensures Conforms(ps) <==> Orderly(ps) && AllPrefixes(ps)
  {
    if Conforms(ps) {
      ConformsIsOrderly(ps);
      forall s: u32
        ensures Prefix(Proj(ps, s))
      {
        RunProjections(ps, s);
      }
    } else if Orderly(ps) && AllPrefixes(ps) {
      OrderlyConforms(ps);
    }
  }

  // ----- back from a chain to the stepwise run -----

  /** Where the `k`-th page of a chain lies. */
  lemma {:induction false} Locate(links: seq<seq<Page>>, k: nat) returns (b: nat, j: nat)
    requires k < |Flatten(links)|
    ensures b < |links| && j < |links[b]|
    ensures Flatten(links)[..k] == Flatten(links[..b]) + links[b][..j]
    ensures Flatten(links)[k..] == links[b][j..] + Flatten(links[b + 1..])
  {
    var l := links[0];
    if k < |l| {
      b, j := 0, k;
      assert links[..0] == [];
    } else {
      var b', j' := Locate(links[1..], k - |l|);
      b, j := b' + 1, j';
      assert links[..b] == [l] + links[1..][..b'];
      assert links[1..][b' + 1..] == links[b + 1..];
      assert Flatten(links)[..k] == l + Flatten(links[1..])[..k - |l|];
      assert Flatten([l] + links[1..][..b']) == l + Flatten(links[1..][..b']) by {
        assert ([l] + links[1..][..b'])[1..] == links[1..][..b'];
      }
      Assoc(l, Flatten(links[1..][..b']), links[b][..j]);
      assert Flatten(links)[k..] == Flatten(links[1..])[k - |l|..];
    }
  }

  lemma {:induction false} OccursInFlatten(links: seq<seq<Page>>, s: u32)
    ensures Occurs(Flatten(links), s) <==> exists a :: 0 <= a < |links| && Occurs(links[a], s)
  {
    if links != [] {
      OccursInFlatten(links[1..], s);
      ProjConcat(links[0], Flatten(links[1..]), s);
      ProjSerial(links[0], s);
      ProjSerial(Flatten(links[1..]), s);
      ProjSerial(Flatten(links), s);
      if Occurs(Flatten(links[1..]), s) {
        var a :| 0 <= a < |links[1..]| && Occurs(links[1..][a], s);
        assert Occurs(links[a + 1], s);
      }
      if a :| 0 <= a < |links| && Occurs(links[a], s) {
        if a > 0 {
          assert links[1..][a - 1] == links[a];
        }
      }
    }
  }

  lemma BosStartsLink(ps: seq<Page>, k: nat, x: seq<Page>, link: seq<Page>, j: nat)
    requires 0 < k <= |ps| && !IsFirst(ps[k - 1])
    requires BosFirst(link) && j < |link| && IsFirst(link[j])
    requires ps[..k] == x + link[..j]
    ensures j == 0
  {
    assert ps[..k][k - 1] == ps[k - 1];
  }

  lemma ChainCut(links: seq<seq<Page>>, ps: seq<Page>, k: nat)
    requires Chain(links, ps) && 0 < k < |ps|
    requires IsFirst(ps[k]) && !IsFirst(ps[k - 1])
    ensures forall s :: Occurs(ps[..k], s) ==> !Occurs(ps[k..], s)
  {
    var b, j := Locate(links, k);
    assert ps[..k] == Flatten(links[..b]) + links[b][..j];
    assert ps[k..] == links[b][j..] + Flatten(links[b + 1..]);
    assert ps[k] == ps[k..][0] == links[b][j];
    BosStartsLink(ps, k, Flatten(links[..b]), links[b], j);
    assert links[b..] == [links[b]] + links[b + 1..];
    assert links[b][..0] == [] && links[b][0..] == links[b];
    assert ps[..k] == Flatten(links[..b]);
    assert ps[k..] == Flatten(links[b..]);
    forall s | Occurs(ps[..k], s)
      ensures !Occurs(ps[k..], s)
    {
      OccursInFlatten(links[..b], s);
      OccursInFlatten(links[b..], s);
      var a :| 0 <= a < b && Occurs(links[..b][a], s);
      assert Occurs(links[a], s);
      forall c | 0 <= c < |links[b..]|
        ensures !Occurs(links[b..][c], s)
      {
        assert NoSharedSerial(links[a], links[b + c]);
      }
    }
  }

  /** Where a later link opens, every stream met so far has had its last page. */
  lemma EarlierClosed(links: seq<seq<Page>>, ps: seq<Page>, n: nat)
    requires Chain(links, ps) && 0 < n < |ps| && IsFirst(ps[n]) && !IsFirst(ps[n - 1])
    requires forall s :: Occurs(ps, s) ==> Stream(Proj(ps, s))
    ensures forall s :: Proj(ps[..n], s) != [] ==> Closed(Proj(ps[..n], s))
  {
    var front, rest := ps[..n], ps[n..];
    assert ps == front + rest;
    ChainCut(links, ps, n);
    forall s | Proj(front, s) != []
      ensures Closed(Proj(front, s))
    {
      ProjSerial(front, s);
      ProjSerial(rest, s);
      ProjConcat(front, rest, s);
      ProjSerial(ps, s);
      assert Proj(front, s) == Proj(ps, s);
      assert Stream(Proj(ps, s));
    }
  }

  /** Each page may follow those of its serial before it. */
  lemma StreamGoesOn(ps: seq<Page>, n: nat, front: seq<Page>, p: Page)
    requires n < |ps| && front == ps[..n] && p == ps[n] && Stream(Proj(ps, p.serial))
    ensures MayFollow(Proj(front, p.serial), p)
  {
    assert ps[..n + 1] == front + [p];
    StreamPrefixes(ps, n + 1, p.serial);
    ProjSnoc(front, p, p.serial);
    UnSnoc(Proj(front, p.serial), p);
  }

  lemma ChainAccepts(links: seq<seq<Page>>, ps: seq<Page>, n: nat, front: seq<Page>, p: Page)
    requires Chain(links, ps) && n < |ps| && front == ps[..n] && p == ps[n]
    requires forall s :: Occurs(ps, s) ==> Stream(Proj(ps, s))
    ensures Accepts(front, p)
  {
    assert Occurs(ps, p.serial);
    StreamGoesOn(ps, n, front, p);
    if IsFirst(p) && DataBegun(front) {
      EarlierClosed(links, ps, n);
    }
  }

  lemma ConformsSnoc(ps: seq<Page>, p: Page)
    ensures Conforms(ps + [p]) <==> Conforms(ps) && Accepts(ps, p)
  {
    UnSnoc(ps, p);
  }

  lemma {:induction false} ChainRuns(links: seq<seq<Page>>, ps: seq<Page>, n: nat)
    requires Chain(links, ps) && n <= |ps|
    requires forall s :: Occurs(ps, s) ==> Stream(Proj(ps, s))
    ensures Conforms(ps[..n])
    decreases n
  {
    if n > 0 {
      var k := n - 1;
      ChainRuns(links, ps, k);
      ChainAccepts(links, ps, k, ps[..k], ps[k]);
      assert ps[..n] == ps[..k] + [ps[k]];
      ConformsSnoc(ps[..k], ps[k]);
    }
  }

  lemma StreamPrefixes(ps: seq<Page>, n: nat, s: u32)
    requires n <= |ps| && Stream(Proj(ps, s))
    ensures Prefix(Proj(ps[..n], s))
  {
    StreamIsClosed(Proj(ps, s));
    PrefixIsOpenStream(Proj(ps, s));
    assert ps == ps[..n] + ps[n..];
    ProjConcat(ps[..n], ps[n..], s);
    PrefixOfPrefix(Proj(ps, s), |Proj(ps[..n], s)|);
    assert Proj(ps, s)[..|Proj(ps[..n], s)|] == Proj(ps[..n], s);
  }

  ghost predicate AllClosed(ps: seq<Page>) { forall s :: Proj(ps, s) != [] ==> Closed(Proj(ps, s)) }

  /** The stepwise run, with every stream ended, is the grammar. */
  lemma RunIsPhysical(ps: seq<Page>)
    ensures ps != [] && Conforms(ps) && AllClosed(ps) <==> Physical(ps)
  {
    if ps != [] && Conforms(ps) && AllClosed(ps) {
      forall s | Occurs(ps, s)
        ensures Stream(Proj(ps, s))
      {
        ProjSerial(ps, s);
        RunProjections(ps, s);
        PrefixIsOpenStream(Proj(ps, s));
        StreamIsClosed(Proj(ps, s));
      }
      ConformsIsOrderly(ps);
      RunIsChained(ps);
      LinksFlatten(ps);
      assert Chain(Links(ps), ps);
    }
    if Physical(ps) {
      var links :| Chain(links, ps);
      ChainRuns(links, ps, |ps|);
      assert ps[..|ps|] == ps;
      forall s | Proj(ps, s) != []
        ensures Closed(Proj(ps, s))
      {
        ProjSerial(ps, s);
        assert Stream(Proj(ps, s));
      }
    }
  }

  // ----- the granule rules, page by page -----

  /** A page with segments on which no packet ends says so. */
  predicate Bare(q: seq<Page>)
  {
    forall k :: 0 <= k < |q| && q[k].lacing != [] && !Completes(q[k].lacing) ==> q[k].granule == -1
  }

  /** No granule of `q` where a packet ends is above `g`. */
  predicate UpTo(q: seq<Page>, g: i64)
  {
    forall j :: 0 <= j < |q| && Completes(q[j].lacing) ==> q[j].granule <= g
  }

  /** Where a packet ends there is a granule, and none before it is above it. */
  predicate GranulesRise(q: seq<Page>)
  {
    forall k :: 0 <= k < |q| && Completes(q[k].lacing) ==> q[k].granule != -1 && UpTo(q[..k], q[k].granule)
  }

  lemma RiseSnoc(q: seq<Page>, p: Page)
    ensures GranulesRise(q + [p])
       <==> GranulesRise(q) && (Completes(p.lacing) ==> p.granule != -1 && UpTo(q, p.granule))
  {
    var r := q + [p];
    assert r[..|q|] == q && r[|q|] == p;
    forall k | 0 <= k < |q|
      ensures r[k] == q[k] && r[..k] == q[..k]
    {}
  }

  lemma UpToSnoc(q: seq<Page>, p: Page, g: i64)
    ensures UpTo(q + [p], g) <==> UpTo(q, g) && (Completes(p.lacing) ==> p.granule <= g)
  {
    var r := q + [p];
    assert r[|q|] == p && forall k :: 0 <= k < |q| ==> r[k] == q[k];
  }

  /** The last granule is the highest. */
  lemma {:induction false} LastIsHighest(q: seq<Page>, g: i64)
    requires GranulesRise(q)
    ensures UpTo(q, g) <==> (LastGranule(q).Some? ==> LastGranule(q).value <= g)
  {
    if q != [] {
      var front, p := q[..|q| - 1], q[|q| - 1];
      assert q == front + [p];
      RiseSnoc(front, p);
      UpToSnoc(front, p, g);
      if Completes(p.lacing) {
        if p.granule <= g {
          assert UpTo(front, p.granule);
        }
      } else {
        LastIsHighest(front, g);
      }
    }
  }

  lemma BareSnoc(q: seq<Page>, p: Page)
    ensures Bare(q + [p]) <==> Bare(q) && (p.lacing != [] && !Completes(p.lacing) ==> p.granule == -1)
  {
    var r := q + [p];
    assert r[|q|] == p && forall k :: 0 <= k < |q| ==> r[k] == q[k];
  }

  /** Pages that follow each other without a break are a stream so far if and only if their granules rise. */
  lemma {:induction false} PrefixMeans(q: seq<Page>)
    requires Unbroken(q) && Bare(q)
    ensures Prefix(q) <==> GranulesRise(q)
  {
    if q != [] {
      var front, p := q[..|q| - 1], q[|q| - 1];
      assert q == front + [p];
      BareSnoc(front, p);
      PrefixMeans(front);
      RiseSnoc(front, p);
      if GranulesRise(front) {
        LastIsHighest(front, p.granule);
      }
    }
  }

  /** On every stream, granules rise. */
  ghost predicate AllRise(ps: seq<Page>) { forall s: u32 :: GranulesRise(Proj(ps, s)) }

  lemma OneRises(ps: seq<Page>, s: u32)
    requires Orderly(ps) && Bare(Proj(ps, s))
    ensures Prefix(Proj(ps, s)) <==> GranulesRise(Proj(ps, s))
  {
    OrderlyProjections(ps, s);
    PrefixMeans(Proj(ps, s));
  }

  /** Pages in order conform if and only if on every stream the granules rise. */
  lemma ConformsRises(ps: seq<Page>)
    requires Orderly(ps) && forall s: u32 :: Bare(Proj(ps, s))
    ensures Conforms(ps) <==> AllRise(ps)
  {
    ConformsMeans(ps);
    if AllPrefixes(ps) {
      forall s: u32
        ensures GranulesRise(Proj(ps, s))
      {
        OneRises(ps, s);
      }
    }
    if AllRise(ps) {
      forall s: u32
        ensures Prefix(Proj(ps, s))
      {
        OneRises(ps, s);
      }
    }
  }
}
