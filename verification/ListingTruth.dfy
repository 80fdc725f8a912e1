/** When the entries that a listing leaves in the cache are true, as cache transparency assumes. */
module ListingTruth {
  import opened Wrappers
  import opened Cache
  import opened CacheTransparency
  import opened Listing
  import opened Prefetch

  /** The server answers for an entry what the listing says. */
  ghost predicate EntryTrue(srv: Server, q: Query, e: Entry) {
    && (e.link != "" ==> srv.link(q.dir + e.name) == LinkText(RealLink(q.prefix, e.link)))
    && (!q.filling ==> srv.attr(q.dir + e.name) == AttrReply.Found(e.stat))
  }

  ghost predicate AllTruthful(srv: Server, effects: seq<Effect>) {
    forall x :: x in effects ==> Truthful(srv, x)
  }

  ghost predicate AllTrue(srv: Server, q: Query, entries: seq<Entry>) {
    forall e :: e in entries ==> EntryTrue(srv, q, e)
  }

  lemma EntryTruth(srv: Server, q: Query, e: Entry, at: Tick)
    ensures AllTruthful(srv, EntryEffects(e, q.dir, q.prefix, q.filling, at)) <==> EntryTrue(srv, q, e)
  {
    var effects, last := EntryEffects(e, q.dir, q.prefix, q.filling, at), LastEffect(q, e, at);
    if e.link != "" {
      var link := SetLink(q.dir + e.name, RealLink(q.prefix, e.link), at);
      assert effects == [link, last] && link in effects && last in effects;
    } else {
      assert effects == [last] && last in effects;
    }
  }

  /** All effects of a listing are truthful exactly when all its entries are true. */
  lemma {:induction false} ListingTruthful(srv: Server, q: Query, parse: LineParser, lines: seq<string>, i: nat,
                                           clock: nat -> Tick)
    ensures AllTruthful(srv, Effects(q, parse, lines, i, clock)) <==> AllTrue(srv, q, Entries(parse, lines))
    decreases |lines|
  {
    if lines != [] {
      var first, rest := LineEffects(q, parse, lines[0], clock(i)), Effects(q, parse, lines[1..], i + 1, clock);
      ListingTruthful(srv, q, parse, lines[1..], i + 1, clock);
      assert AllTruthful(srv, first + rest) <==> AllTruthful(srv, first) && AllTruthful(srv, rest) by {
        assert forall x :: x in first || x in rest ==> x in first + rest;
      }
      match parse(lines[0])
      case Some(e) =>
        EntryTruth(srv, q, e, clock(i));
        assert Entries(parse, lines) == [e] + Entries(parse, lines[1..]);
        assert e in Entries(parse, lines);
        assert forall x :: x in Entries(parse, lines[1..]) ==> x in Entries(parse, lines);
      case None =>
        assert Entries(parse, lines) == Entries(parse, lines[1..]);
    }
  }

  function Listed(entries: seq<Entry>): seq<DirEntry> {
    if entries == [] then [] else [DirEntry(entries[0].name, entries[0].stat)] + Listed(entries[1..])
  }

  lemma {:induction false} FillsAppend(first: seq<Effect>, second: seq<Effect>)
    ensures Fills(first + second) == Fills(first) + Fills(second)
    decreases |first|
  {
    if first == [] {
      assert first + second == second;
    } else {
      assert (first + second)[0] == first[0] && (first + second)[1..] == first[1..] + second;
      FillsAppend(first[1..], second);
    }
  }

  lemma EntryFills(q: Query, e: Entry, at: Tick)
    ensures Fills(EntryEffects(e, q.dir, q.prefix, q.filling, at)) ==
            if q.filling then [DirEntry(e.name, e.stat)] else []
  {
    var effects, last := EntryEffects(e, q.dir, q.prefix, q.filling, at), LastEffect(q, e, at);
    assert [last][1..] == [];
    assert Fills([last]) == if q.filling then [DirEntry(e.name, e.stat)] else [];
    if e.link != "" { assert effects[1..] == [last]; } else { assert effects == [last]; }
  }

  /** A listing that is read for a directory hands over all its entries, any other none. */
  lemma {:induction false} FillsOfListing(q: Query, parse: LineParser, lines: seq<string>, i: nat, clock: nat -> Tick)
    ensures Fills(Effects(q, parse, lines, i, clock)) == if q.filling then Listed(Entries(parse, lines)) else []
    decreases |lines|
  {
    if lines != [] {
      FillsOfListing(q, parse, lines[1..], i + 1, clock);
      FillsAppend(LineEffects(q, parse, lines[0], clock(i)), Effects(q, parse, lines[1..], i + 1, clock));
      match parse(lines[0])
      case Some(e) =>
        EntryFills(q, e, clock(i));
        assert Entries(parse, lines)[0] == e && Entries(parse, lines)[1..] == Entries(parse, lines[1..]);
      case None =>
        assert Entries(parse, lines) == Entries(parse, lines[1..]);
    }
  }

  /** The request was answered by parsing these lines while the clock did not go back. */
  ghost predicate AnsweredBy(srv: Server, r: Request, now: Time, q: Query, parse: LineParser, lines: seq<string>,
                             clock: nat -> Tick) {
    && !r.Change? && r.effects == Effects(q, parse, lines, 0, clock) && (q.filling <==> r.Getdir?)
    && now <= r.at && InOrder(r.effects, r.at, r.add.now) && r.add.now <= r.add.cleanNow
    && (r.Getdir? ==> forall name: string :: r.filler(name))
    && (r.Getdir? ==> srv.dir(r.path).entries == Listed(Entries(parse, lines)))
  }

  /** A request that is answered by parsing a listing is one that cache transparency covers exactly
      when every entry of the listing is true. */
  lemma ListingIsProperExactlyWhen(srv: Server, size: nat, r: Request, now: Time, q: Query, parse: LineParser,
                                   lines: seq<string>, clock: nat -> Tick)
    requires AnsweredBy(srv, r, now, q, parse, lines, clock) && (r.Readlink? ==> r.size == size)
    ensures Proper(srv, size, r, now) <==> AllTrue(srv, q, Entries(parse, lines))
  {
    ListingTruthful(srv, q, parse, lines, 0, clock);
    FillsOfListing(q, parse, lines, 0, clock);
  }

  // ---------------------------------------------------------------- the program as its own server

  /** What `ftpfs_getattr` and `ftpfs_readlink` answer for the entries of a listing: the attributes
      of the last entry of the name, and the last link of the listing. */
  ghost predicate AnswersFrom(srv: Server, q: Query, entries: seq<Entry>) {
    forall e :: e in entries ==>
      && (Lookup(entries, e.name).Some? ==> srv.attr(q.dir + e.name) == AttrReply.Found(Lookup(entries, e.name).value))
      && (LastLink(entries, q.prefix).Some? ==> srv.link(q.dir + e.name) == LinkText(LastLink(entries, q.prefix).value))
  }

  lemma {:induction false} LookupIsListed(entries: seq<Entry>, e: Entry)
    requires e in entries
    ensures Lookup(entries, e.name).Some?
    ensures exists x :: x in entries && x.name == e.name && x.stat == Lookup(entries, e.name).value
    decreases |entries|
  {
    if Lookup(entries[1..], e.name).Some? {
      ListedLater(entries[1..], e.name);
      var x :| x in entries[1..] && x.name == e.name && x.stat == Lookup(entries[1..], e.name).value;
      assert x in entries;
    } else if entries[0].name == e.name {
      assert entries[0] in entries;
    } else {
      assert e in entries[1..];
      LookupIsListed(entries[1..], e);
    }
  }

  lemma {:induction false} ListedLater(entries: seq<Entry>, name: string)
    requires Lookup(entries, name).Some?
    ensures exists x :: x in entries && x.name == name && x.stat == Lookup(entries, name).value
    decreases |entries|
  {
    if Lookup(entries[1..], name).Some? {
      ListedLater(entries[1..], name);
      var x :| x in entries[1..] && x.name == name && x.stat == Lookup(entries[1..], name).value;
      assert x in entries;
    } else {
      assert entries[0] in entries;
    }
  }

  lemma {:induction false} LastLinkIsListed(entries: seq<Entry>, prefix: string)
    ensures LastLink(entries, prefix).Some? ==>
              exists x :: x in entries && x.link != "" && RealLink(prefix, x.link) == LastLink(entries, prefix).value
    ensures LastLink(entries, prefix).None? ==> forall x :: x in entries ==> x.link == ""
    decreases |entries|
  {
    if entries != [] {
      LastLinkIsListed(entries[1..], prefix);
      if LastLink(entries[1..], prefix).Some? {
        var x :| x in entries[1..] && x.link != "" && RealLink(prefix, x.link) == LastLink(entries[1..], prefix).value;
        assert x in entries;
      } else {
        assert entries[0] in entries && forall x :: x in entries ==> x == entries[0] || x in entries[1..];
      }
    }
  }

  predicate OneStatPerName(entries: seq<Entry>) {
    forall a, b :: a in entries && b in entries && a.name == b.name ==> a.stat == b.stat
  }

  predicate OneLinkText(entries: seq<Entry>, prefix: string) {
    forall a, b :: a in entries && b in entries && a.link != "" && b.link != "" ==>
                     RealLink(prefix, a.link) == RealLink(prefix, b.link)
  }

  lemma EntryIsTrue(srv: Server, q: Query, entries: seq<Entry>, e: Entry)
    requires e in entries && AnswersFrom(srv, q, entries)
    requires (q.filling || OneStatPerName(entries)) && OneLinkText(entries, q.prefix)
    ensures EntryTrue(srv, q, e)
  {
    LookupIsListed(entries, e);
    var x :| x in entries && x.name == e.name && x.stat == Lookup(entries, e.name).value;
    LastLinkIsListed(entries, q.prefix);
    if e.link != "" {
      var y :| y in entries && y.link != "" && RealLink(q.prefix, y.link) == LastLink(entries, q.prefix).value;
    }
  }

  lemma TrueEntriesAgree(srv: Server, q: Query, entries: seq<Entry>, a: Entry, b: Entry)
    requires AllTrue(srv, q, entries) && AnswersFrom(srv, q, entries) && a in entries && b in entries
    ensures !q.filling && a.name == b.name ==> a.stat == b.stat
    ensures a.link != "" && b.link != "" ==> RealLink(q.prefix, a.link) == RealLink(q.prefix, b.link)
  {
    assert EntryTrue(srv, q, a) && EntryTrue(srv, q, b);
    LastLinkIsListed(entries, q.prefix);
  }

  /** The program agrees with what its own listing puts into the cache exactly when the listing has
      no name with two attributes and no two links with different texts.  A directory request leaves
      the attributes to the filler, so there only the links matter. */
  lemma OwnListingIsTrueExactlyWhen(srv: Server, q: Query, entries: seq<Entry>)
    requires AnswersFrom(srv, q, entries)
    ensures AllTrue(srv, q, entries) <==> (q.filling || OneStatPerName(entries)) && OneLinkText(entries, q.prefix)
  {
    if AllTrue(srv, q, entries) {
      forall a, b | a in entries && b in entries
        ensures !q.filling && a.name == b.name ==> a.stat == b.stat
        ensures a.link != "" && b.link != "" ==> RealLink(q.prefix, a.link) == RealLink(q.prefix, b.link)
      {
        TrueEntriesAgree(srv, q, entries, a, b);
      }
    }
    if (q.filling || OneStatPerName(entries)) && OneLinkText(entries, q.prefix) {
      forall e | e in entries ensures EntryTrue(srv, q, e) {
        EntryIsTrue(srv, q, entries, e);
      }
    }
  }
}
