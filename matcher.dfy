/** Matching live devices against configured descriptors and enriching the matches
    (the body of `HIDController.scan_devices`, for one enumeration). */
module Matcher {
  import opened Values

  /** A live device matches a descriptor when the descriptor has both a manufacturer
      string and a product string and both equal the live device's. Vendor and product
      ids take no part. (An enumerated record always has both strings.) */
  predicate Matches(desc: Record, live: Record)
    ensures Matches(desc, live) ==> ManufacturerKey in desc && ProductKey in desc
    ensures IsEnumerated(live) ==>
              (Matches(desc, live) <==>
                 && ManufacturerKey in desc && live[ManufacturerKey] == desc[ManufacturerKey]
                 && ProductKey in desc && live[ProductKey] == desc[ProductKey])
  {
    && ManufacturerKey in desc && ManufacturerKey in live
    && live[ManufacturerKey] == desc[ManufacturerKey]
    && ProductKey in desc && ProductKey in live
    && live[ProductKey] == desc[ProductKey]
  }

  /** Whether checking a live device against a descriptor raises on a missing field:
      the descriptor has a manufacturer string and the live device has none; or they
      agree on it, the descriptor has a product string and the live device has none; or
      both strings agree and the live device lacks a field of the match's log line. */
  predicate LookupFails(desc: Record, live: Record)
    ensures LookupFails(desc, live) ==> ManufacturerKey in desc && !Loggable(live)
    ensures Matches(desc, live) ==> (LookupFails(desc, live) <==> !Loggable(live))
    ensures IsEnumerated(live) ==> !LookupFails(desc, live)
  {
    && ManufacturerKey in desc
    && (|| ManufacturerKey !in live
        || (&& live[ManufacturerKey] == desc[ManufacturerKey]
            && ProductKey in desc
            && (ProductKey !in live || (live[ProductKey] == desc[ProductKey] && !Loggable(live)))))
  }

  /** The position of the first live device whose check raises, or |live| when none
      does. */
  function FirstLookupFailure(desc: Record, live: seq<Record>): (k: nat)
    ensures k <= |live|
    ensures k < |live| ==> LookupFails(desc, live[k])
    ensures forall m :: 0 <= m < k ==> !LookupFails(desc, live[m])
    decreases |live|
  {
    if live == [] || LookupFails(desc, live[0]) then 0
    else 1 + FirstLookupFailure(desc, live[1..])
  }

  /** A complete enumeration record never makes the check raise. */
  lemma EnumeratedNeverFails(desc: Record, live: seq<Record>)
    requires AllEnumerated(live)
    ensures FirstLookupFailure(desc, live) == |live|
  {
  }

  /** The live record with every descriptor field it lacks added; live fields are
      never overwritten. */
  function Enrich(live: Record, desc: Record): (r: Record)
    ensures r.Keys == live.Keys + desc.Keys
    ensures forall k :: k in live ==> r[k] == live[k]
    ensures forall k :: k in desc && k !in live ==> r[k] == desc[k]
  {
    live + (desc - live.Keys)
  }

  /** The enrichment loop of `scan_devices`: for each descriptor field, add it to the
      live record unless the record already has that key. */
  method EnrichRecord(live: Record, desc: Record) returns (r: Record)
    ensures r == Enrich(live, desc)
  {
    r := live;
    var pending := desc.Keys;
    while pending != {}
      invariant pending <= desc.Keys
      invariant r.Keys == live.Keys + (desc.Keys - pending)
      invariant forall k :: k in live ==> r[k] == live[k]
      invariant forall k :: k in r && k !in live ==> k in desc && r[k] == desc[k]
      decreases pending
    {
      var k :| k in pending;
      if k !in r {
        r := r[k := desc[k]];
      }
      pending := pending - {k};
    }
  }

  /** The entries one descriptor contributes: the live devices it matches, in
      enumeration order, each enriched with the descriptor. */
  function Group(desc: Record, live: seq<Record>): (g: seq<Record>)
    ensures |g| <= |live|
  {
    if live == [] then []
    else
      var last := live[|live| - 1];
      Group(desc, live[..|live| - 1]) + (if Matches(desc, last) then [Enrich(last, desc)] else [])
  }

  /** The device list of one scan against an unchanging enumeration: the groups of the
      descriptors, in configuration order. */
  function ScanResult(descs: seq<Record>, live: seq<Record>): seq<Record> {
    if descs == [] then [] else Group(descs[0], live) + ScanResult(descs[1..], live)
  }

  /** How many descriptors a live device matches. */
  function MatchCount(descs: seq<Record>, live: Record): nat {
    if descs == [] then 0
    else (if Matches(descs[0], live) then 1 else 0) + MatchCount(descs[1..], live)
  }

  /** Every entry of a group is a live device the descriptor matches, enriched with it. */
  lemma {:induction false} GroupSound(desc: Record, live: seq<Record>, r: Record)
    requires r in Group(desc, live)
    ensures exists l :: l in live && Matches(desc, l) && r == Enrich(l, desc)
    decreases |live|
  {
    var n := |live| - 1;
    if r in Group(desc, live[..n]) {
      GroupSound(desc, live[..n], r);
      var l :| l in live[..n] && Matches(desc, l) && r == Enrich(l, desc);
      assert l in live;
    } else {
      assert live[n] in live;
    }
  }

  /** Every matched live device appears in its descriptor's group. */
  lemma {:induction false} GroupComplete(desc: Record, live: seq<Record>, k: nat)
    requires k < |live| && Matches(desc, live[k])
    ensures Enrich(live[k], desc) in Group(desc, live)
    decreases |live|
  {
    var n := |live| - 1;
    if k < n {
      GroupComplete(desc, live[..n], k);
    }
  }

  /** A descriptor without a manufacturer string or without a product string matches
      nothing. */
  lemma {:induction false} GroupNeedsBothStrings(desc: Record, live: seq<Record>)
    requires ManufacturerKey !in desc || ProductKey !in desc
    ensures Group(desc, live) == []
    decreases |live|
  {
    if live != [] {
      GroupNeedsBothStrings(desc, live[..|live| - 1]);
    }
  }

  /** Matching ignores the vendor and product ids on either side. */
  lemma MatchIgnoresIds(desc: Record, live: Record, vid: Value, pid: Value)
    ensures Matches(desc[VendorIdKey := vid][ProductIdKey := pid], live) == Matches(desc, live)
    ensures Matches(desc, live[VendorIdKey := vid][ProductIdKey := pid]) == Matches(desc, live)
  {
  }

  /** The entries kept from devices whose checks did not raise can all be logged: a
      device is logged before it is kept. */
  lemma GroupLoggable(desc: Record, live: seq<Record>)
    requires forall m :: 0 <= m < |live| ==> !LookupFails(desc, live[m])
    ensures AllLoggable(Group(desc, live))
  {
    var g := Group(desc, live);
    forall i | 0 <= i < |g| ensures Loggable(g[i]) {
      GroupSound(desc, live, g[i]);
      var l :| l in live && Matches(desc, l) && g[i] == Enrich(l, desc);
      var m :| 0 <= m < |live| && live[m] == l;
      assert !LookupFails(desc, live[m]);
    }
  }

  /** Every entry of a scan carries the manufacturer and product strings of a configured
      descriptor that has both, keeps every field of a live device, and adds the rest of
      that descriptor. */
  lemma {:induction false} ScanSound(descs: seq<Record>, live: seq<Record>, r: Record)
    requires r in ScanResult(descs, live)
    ensures exists d, l :: d in descs && l in live && Matches(d, l) && r == Enrich(l, d)
    ensures exists d :: d in descs && ManufacturerKey in d && ProductKey in d
                     && ManufacturerKey in r && r[ManufacturerKey] == d[ManufacturerKey]
                     && ProductKey in r && r[ProductKey] == d[ProductKey]
    decreases |descs|
  {
    if r in Group(descs[0], live) {
      GroupSound(descs[0], live, r);
      var l :| l in live && Matches(descs[0], l) && r == Enrich(l, descs[0]);
      assert descs[0] in descs;
    } else {
      ScanSound(descs[1..], live, r);
      var d, l :| d in descs[1..] && l in live && Matches(d, l) && r == Enrich(l, d);
      assert d in descs;
    }
  }

  /** The entries of a scan are the enumerated records plus configuration fields. */
  lemma {:induction false} ScanEntriesEnumerated(descs: seq<Record>, live: seq<Record>)
    requires AllEnumerated(live)
    ensures AllEnumerated(ScanResult(descs, live))
  {
    var res := ScanResult(descs, live);
    forall i | 0 <= i < |res| ensures IsEnumerated(res[i]) {
      ScanSound(descs, live, res[i]);
    }
  }

  /** A live device that matches k descriptors appears k times in the scan. */
  lemma {:induction false} ScanMultiplicity(descs: seq<Record>, l: Record)
    ensures |ScanResult(descs, [l])| == MatchCount(descs, l)
    decreases |descs|
  {
    if descs != [] {
      ScanMultiplicity(descs[1..], l);
      assert [l][..0] == [];
    }
  }

  /** Scanning a concatenated enumeration gives, up to order, the entries of scanning
      each part. */
  lemma {:induction false} ScanResultSplit(descs: seq<Record>, a: seq<Record>, b: seq<Record>)
    ensures multiset(ScanResult(descs, a + b)) == multiset(ScanResult(descs, a)) + multiset(ScanResult(descs, b))
    decreases |descs|
  {
    if descs != [] {
      ScanResultSplit(descs[1..], a, b);
      GroupAppend(descs[0], a, b);
    }
  }

  /** The scan of a concatenated enumeration is as long as the scans of its parts. */
  lemma ScanResultLength(descs: seq<Record>, a: seq<Record>, b: seq<Record>)
    ensures |ScanResult(descs, a + b)| == |ScanResult(descs, a)| + |ScanResult(descs, b)|
  {
    ScanResultSplit(descs, a, b);
    assert |multiset(ScanResult(descs, a + b))| == |ScanResult(descs, a + b)|;
    assert |multiset(ScanResult(descs, a))| == |ScanResult(descs, a)|;
    assert |multiset(ScanResult(descs, b))| == |ScanResult(descs, b)|;
  }

  /** How many entries a scan of `live` holds: each live device once per descriptor it
      matches. */
  function TotalMatches(descs: seq<Record>, live: seq<Record>): nat {
    if live == [] then 0
    else TotalMatches(descs, live[..|live| - 1]) + MatchCount(descs, live[|live| - 1])
  }

  /** A scan holds each live device once per descriptor it matches, over the whole
      enumeration. */
  lemma {:induction false} ScanSize(descs: seq<Record>, live: seq<Record>)
    ensures |ScanResult(descs, live)| == TotalMatches(descs, live)
    decreases |live|
  {
    if live != [] {
      var n := |live| - 1;
      var front, last := live[..n], live[n];
      ScanSize(descs, front);
      ScanMultiplicity(descs, last);
      assert front + [last] == live;
      ScanResultLength(descs, front, [last]);
      assert TotalMatches(descs, live) == TotalMatches(descs, front) + MatchCount(descs, last);
    } else {
      ScanOfNothing(descs);
    }
  }

  /** An empty enumeration matches nothing. */
  lemma {:induction false} ScanOfNothing(descs: seq<Record>)
    ensures ScanResult(descs, []) == []
    decreases |descs|
  {
    if descs != [] {
      ScanOfNothing(descs[1..]);
    }
  }

  /** Extending the enumeration prefix by one device extends the group by that device
      when it matches. */
  lemma GroupExtend(desc: Record, live: seq<Record>, k: nat)
    requires k < |live|
    ensures Group(desc, live[..k + 1])
            == Group(desc, live[..k]) + (if Matches(desc, live[k]) then [Enrich(live[k], desc)] else [])
  {
    assert live[..k + 1][..k] == live[..k];
  }

  /** The scan of a concatenation of descriptor lists is the concatenation of their
      scans. */
  lemma {:induction false} ScanResultConcat(a: seq<Record>, b: seq<Record>, live: seq<Record>)
    ensures ScanResult(a + b, live) == ScanResult(a, live) + ScanResult(b, live)
    decreases |a|
  {
    if a != [] {
      assert (a + b)[1..] == a[1..] + b;
      ScanResultConcat(a[1..], b, live);
      AppendAssoc(Group(a[0], live), ScanResult(a[1..], live), ScanResult(b, live));
    } else {
      assert a + b == b;
    }
  }

  /** Scanning extra descriptors appends their groups. */
  lemma {:induction false} ScanResultAppend(descs: seq<Record>, d: Record, live: seq<Record>)
    ensures ScanResult(descs + [d], live) == ScanResult(descs, live) + Group(d, live)
    decreases |descs|
  {
    var ds := descs + [d];
    if descs == [] {
      assert ds == [d] && ds[1..] == [];
      assert ScanResult(ds, live) == Group(d, live) + ScanResult([], live);
    } else {
      var g0, rest, gd := Group(descs[0], live), ScanResult(descs[1..], live), Group(d, live);
      assert ds[0] == descs[0] && ds[1..] == descs[1..] + [d];
      assert ScanResult(descs, live) == g0 + rest;
      ScanResultAppend(descs[1..], d, live);
      assert ScanResult(ds, live) == g0 + (rest + gd);
      assert g0 + (rest + gd) == (g0 + rest) + gd;
    }
  }

  /** Enriching twice with the same descriptor changes nothing. */
  lemma EnrichIdempotent(live: Record, desc: Record)
    ensures Enrich(Enrich(live, desc), desc) == Enrich(live, desc)
  {
  }

  /** A group of a concatenation is the concatenation of the groups. */
  lemma {:induction false} GroupAppend(desc: Record, a: seq<Record>, b: seq<Record>)
    ensures Group(desc, a + b) == Group(desc, a) + Group(desc, b)
    decreases |b|
  {
    if b == [] {
      assert a + b == a;
    } else {
      var n := |b| - 1;
      assert (a + b)[..|a + b| - 1] == a + b[..n];
      GroupAppend(desc, a, b[..n]);
    }
  }

  /** Matching the matched devices of one descriptor against it again gives the same
      list: matched entries still match and enrichment adds nothing new. */
  lemma {:induction false} GroupIdempotent(desc: Record, live: seq<Record>)
    ensures Group(desc, Group(desc, live)) == Group(desc, live)
    decreases |live|
  {
    if live != [] {
      var n := |live| - 1;
      GroupIdempotent(desc, live[..n]);
      var tail := if Matches(desc, live[n]) then [Enrich(live[n], desc)] else [];
      GroupAppend(desc, Group(desc, live[..n]), tail);
      if Matches(desc, live[n]) {
        EnrichIdempotent(live[n], desc);
        assert Group(desc, tail) == Group(desc, [])  + [Enrich(live[n], desc)] by {
          assert tail[..0] == [];
        }
      }
    }
  }

  /** A live "Acme Widget" matches a descriptor with those strings whatever its vendor
      id, and the matched entry carries the descriptor's byte-strings. */
  lemma AcmeWidgetExample(liveVid: Value, descVid: Value, path: Value, bytes: Value)
    ensures
      var live := map[ManufacturerKey := VStr("Acme"), ProductKey := VStr("Widget"),
                      VendorIdKey := liveVid, PathKey := path];
      var desc := map[ManufacturerKey := VStr("Acme"), ProductKey := VStr("Widget"),
                      VendorIdKey := descVid, ByteStringsKey := bytes];
      && Matches(desc, live)
      && ByteStringsKey in Enrich(live, desc) && Enrich(live, desc)[ByteStringsKey] == bytes
      && Enrich(live, desc)[VendorIdKey] == liveVid
  {
  }
}
