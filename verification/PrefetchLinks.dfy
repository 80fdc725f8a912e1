/** The link texts that a `parse_dir` call leaves in the cache. */
module PrefetchLinks {
  import opened Wrappers
  import opened Cache
  import opened Listing
  import opened Prefetch

  /** The link of `key` is in the table and stays live until `t`. */
  predicate ShowsLink(s: State, key: Path, text: string, t: Time) {
    key in s.table && s.table[key].link == Some(text) && t <= s.table[key].linkValid <= s.table[key].valid
  }

  /** The link an effect stores under `key`, if it does. */
  function LinkSetBy(e: Effect, key: Path): Option<string> {
    if e.SetLink? && e.path == key then Some(e.text) else None
  }

  function LastSetLink(es: seq<Effect>, key: Path): Option<string> {
    if es == [] then None
    else if LastSetLink(es[1..], key).Some? then LastSetLink(es[1..], key)
    else LinkSetBy(es[0], key)
  }

  /** The clock of the effect is not past `t`, and a link that it adds is still live at `t`. */
  predicate LinkInTime(cfg: Config, e: Effect, t: Time) {
    e.at.cleanNow <= t <= e.at.now + cfg.linkTimeout
  }

  lemma EffectSetsLink(cfg: Config, s: State, path: Path, filler: string -> bool, e: Effect, key: Path, text: string,
      t: Time)
    requires LinkInTime(cfg, e, t) && LinkSetBy(e, key) == Some(text)
    ensures ShowsLink(AfterEffect(cfg, s, path, filler, e), key, text, t)
  {
    assert Take(text, |text|) == text;
  }

  lemma EffectKeepsLink(cfg: Config, s: State, path: Path, filler: string -> bool, e: Effect, key: Path, text: string,
      t: Time)
    requires LinkInTime(cfg, e, t) && LinkSetBy(e, key) == None && ShowsLink(s, key, text, t)
    ensures ShowsLink(AfterEffect(cfg, s, path, filler, e), key, text, t)
  {
  }

  lemma {:induction false} EffectsKeepLink(cfg: Config, s: State, path: Path, filler: string -> bool, es: seq<Effect>,
                                           key: Path, text: string, t: Time)
    requires forall e :: e in es ==> LinkInTime(cfg, e, t)
    requires LastSetLink(es, key) == None && ShowsLink(s, key, text, t)
    ensures ShowsLink(AfterEffects(cfg, s, path, filler, es), key, text, t)
    decreases |es|
  {
    if es != [] {
      assert es[0] in es;
      EffectKeepsLink(cfg, s, path, filler, es[0], key, text, t);
      EffectsKeepLink(cfg, AfterEffect(cfg, s, path, filler, es[0]), path, filler, es[1..], key, text, t);
    }
  }

  /** The last link stored under a key is the one the cache shows. */
  lemma {:induction false} LastSetLinkShows(cfg: Config, s: State, path: Path, filler: string -> bool,
                                            es: seq<Effect>, key: Path, text: string, t: Time)
    requires forall e :: e in es ==> LinkInTime(cfg, e, t)
    requires LastSetLink(es, key) == Some(text)
    ensures ShowsLink(AfterEffects(cfg, s, path, filler, es), key, text, t)
    decreases |es|
  {
    var s' := AfterEffect(cfg, s, path, filler, es[0]);
    assert es[0] in es;
    if LastSetLink(es[1..], key).Some? {
      LastSetLinkShows(cfg, s', path, filler, es[1..], key, text, t);
    } else {
      EffectSetsLink(cfg, s, path, filler, es[0], key, text, t);
      EffectsKeepLink(cfg, s', path, filler, es[1..], key, text, t);
    }
  }

  // ---------------------------------------------------------------- from lines to effects

  /** The text of the last link of that name. */
  function LookupLink(entries: seq<Entry>, prefix: string, name: string): Option<string> {
    if entries == [] then None
    else if LookupLink(entries[1..], prefix, name).Some? then LookupLink(entries[1..], prefix, name)
    else if entries[0].name == name && entries[0].link != "" then Some(RealLink(prefix, entries[0].link)) else None
  }

  lemma {:induction false} LastSetLinkAppend(first: seq<Effect>, second: seq<Effect>, key: Path)
    ensures LastSetLink(first + second, key) ==
            if LastSetLink(second, key).Some? then LastSetLink(second, key) else LastSetLink(first, key)
    decreases |first|
  {
    if first == [] {
      assert first + second == second;
    } else {
      assert (first + second)[0] == first[0] && (first + second)[1..] == first[1..] + second;
      LastSetLinkAppend(first[1..], second, key);
    }
  }

  lemma SameName(dir: string, a: string, b: string)
    requires dir + a == dir + b
    ensures a == b
  {
    assert a == (dir + a)[|dir|..] && b == (dir + b)[|dir|..];
  }

  lemma {:induction false} EntrySetsLink(q: Query, e: Entry, at: Tick, name: string)
    ensures LastSetLink(EntryEffects(e, q.dir, q.prefix, q.filling, at), q.dir + name) ==
            if e.name == name && e.link != "" then Some(RealLink(q.prefix, e.link)) else None
  {
    if q.dir + e.name == q.dir + name { SameName(q.dir, e.name, name); }
    var es, last := EntryEffects(e, q.dir, q.prefix, q.filling, at), LastEffect(q, e, at);
    assert [last][1..] == [];
    assert LastSetLink([last], q.dir + name) == None;
    if e.link != "" { assert es[1..] == [last]; } else { assert es == [last]; }
  }

  /** The last text that a listing stores for a link is that of its last link of the name. */
  lemma {:induction false} LinesSetLink(q: Query, parse: LineParser, lines: seq<string>, i: nat, clock: nat -> Tick,
      name: string)
    ensures LastSetLink(Effects(q, parse, lines, i, clock), q.dir + name) ==
            LookupLink(Entries(parse, lines), q.prefix, name)
    decreases |lines|
  {
    if lines != [] {
      LinesSetLink(q, parse, lines[1..], i + 1, clock, name);
      LastSetLinkAppend(LineEffects(q, parse, lines[0], clock(i)), Effects(q, parse, lines[1..], i + 1, clock),
                        q.dir + name);
      match parse(lines[0])
      case Some(e) =>
        EntrySetsLink(q, e, clock(i), name);
        assert Entries(parse, lines)[0] == e && Entries(parse, lines)[1..] == Entries(parse, lines[1..]);
      case None =>
        assert Entries(parse, lines) == Entries(parse, lines[1..]);
    }
  }

  /** The `n` readings that a parse makes of the clock lie within the link timeout before `t`. */
  predicate LinkClockWithin(cfg: Config, clock: nat -> Tick, i: nat, n: nat, t: Time) {
    forall k: nat :: i <= k < i + n ==> clock(k).cleanNow <= t <= clock(k).now + cfg.linkTimeout
  }

  lemma {:induction false} EffectsInLinkTime(cfg: Config, q: Query, parse: LineParser, lines: seq<string>, i: nat,
      clock: nat -> Tick, t: Time)
    requires LinkClockWithin(cfg, clock, i, |lines|, t)
    ensures forall e :: e in Effects(q, parse, lines, i, clock) ==> LinkInTime(cfg, e, t)
    decreases |lines|
  {
    if lines != [] {
      EffectsInLinkTime(cfg, q, parse, lines[1..], i + 1, clock, t);
      assert forall e :: e in LineEffects(q, parse, lines[0], clock(i)) ==> e.at == clock(i);
    }
  }

  /** Links are prefetched exactly: after any `parse_dir` call the cache answers for every listed link,
      within the link timeout, with its own text behind the prefix, whatever other links are listed. */
  lemma LinksArePrefetched(cfg: Config, s: State, q: Query, list: string, parse: LineParser, clock: nat -> Tick,
                           f: string, t: Time)
    requires LinkClockWithin(cfg, clock, 0, |Lines(list)|, t)
    requires LookupLink(Entries(parse, Lines(list)), q.prefix, f).Some?
    ensures
      var after := AfterEffects(cfg, s, q.path, q.filler, Effects(q, parse, Lines(list), 0, clock));
      CachedLink(after, q.dir + f, t) == LookupLink(Entries(parse, Lines(list)), q.prefix, f)
  {
    var es := Effects(q, parse, Lines(list), 0, clock);
    var text := LookupLink(Entries(parse, Lines(list)), q.prefix, f).value;
    LinesSetLink(q, parse, Lines(list), 0, clock, f);
    EffectsInLinkTime(cfg, q, parse, Lines(list), 0, clock, t);
    LastSetLinkShows(cfg, s, q.path, q.filler, es, q.dir + f, text, t);
  }

  /** A link that no later link of the same name follows is the one that counts. */
  lemma {:induction false} LookupLinkIs(before: seq<Entry>, e: Entry, later: seq<Entry>, prefix: string)
    requires e.link != "" && forall i :: 0 <= i < |later| ==> later[i].name != e.name || later[i].link == ""
    ensures LookupLink(before + ([e] + later), prefix, e.name) == Some(RealLink(prefix, e.link))
    decreases |before|
  {
    var all := before + ([e] + later);
    if before != [] {
      assert all[0] == before[0] && all[1..] == before[1..] + ([e] + later);
      LookupLinkIs(before[1..], e, later, prefix);
    } else {
      assert all == [e] + later && all[1..] == later;
      NoLaterLink(later, prefix, e.name);
    }
  }

  lemma {:induction false} NoLaterLink(entries: seq<Entry>, prefix: string, name: string)
    requires forall i :: 0 <= i < |entries| ==> entries[i].name != name || entries[i].link == ""
    ensures LookupLink(entries, prefix, name) == None
    decreases |entries|
  {
    if entries != [] {
      assert forall i :: 0 <= i < |entries[1..]| ==> entries[1..][i] == entries[i + 1];
      NoLaterLink(entries[1..], prefix, name);
    }
  }
}
