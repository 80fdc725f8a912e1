/** What a `parse_dir` call leaves in the cache and in its buffers, entry by entry. */
module Prefetch {
  import opened Wrappers
  import opened Cache
  import opened Listing

  // ---------------------------------------------------------------- attributes

  /** The attribute of `key` is in the table and stays live until `t`. */
  predicate Shows(s: State, key: Path, stat: Stat, t: Time) {
    && key in s.table && !s.table[key].notFound && s.table[key].stat == stat
    && t <= s.table[key].statValid <= s.table[key].valid
  }

  /** The attribute an effect stores under `key`, if it does. */
  function SetBy(e: Effect, path: Path, filler: string -> bool, key: Path): Option<Stat> {
    match e
    case SetAttr(p, stat, _) => if p == key then Some(stat) else None
    case SetLink(_, _, _) => None
    case Fill(name, stat, _) => if filler(name) && ChildKey(path, name) == key then Some(stat) else None
  }

  function LastSet(es: seq<Effect>, path: Path, filler: string -> bool, key: Path): Option<Stat> {
    if es == [] then None
    else
      var later := LastSet(es[1..], path, filler, key);
      if later.Some? then later else SetBy(es[0], path, filler, key)
  }

  /** The clock of the effect is not past `t`, and what it adds is still live at `t`. */
  predicate InTime(cfg: Config, e: Effect, t: Time) {
    e.at.cleanNow <= t <= e.at.now + cfg.statTimeout
  }

  lemma EffectSets(cfg: Config, s: State, path: Path, filler: string -> bool, e: Effect, key: Path, stat: Stat, t: Time)
    requires InTime(cfg, e, t) && SetBy(e, path, filler, key) == Some(stat)
    ensures Shows(AfterEffect(cfg, s, path, filler, e), key, stat, t)
  {
  }

  lemma EffectKeeps(cfg: Config, s: State, path: Path, filler: string -> bool, e: Effect, key: Path, stat: Stat,
      t: Time)
    requires InTime(cfg, e, t) && SetBy(e, path, filler, key) == None && Shows(s, key, stat, t)
    ensures Shows(AfterEffect(cfg, s, path, filler, e), key, stat, t)
  {
  }

  lemma {:induction false} EffectsKeep(cfg: Config, s: State, path: Path, filler: string -> bool, es: seq<Effect>,
                                       key: Path, stat: Stat, t: Time)
    requires forall e :: e in es ==> InTime(cfg, e, t)
    requires LastSet(es, path, filler, key) == None && Shows(s, key, stat, t)
    ensures Shows(AfterEffects(cfg, s, path, filler, es), key, stat, t)
    decreases |es|
  {
    if es != [] {
      assert es[0] in es;
      EffectKeeps(cfg, s, path, filler, es[0], key, stat, t);
      EffectsKeep(cfg, AfterEffect(cfg, s, path, filler, es[0]), path, filler, es[1..], key, stat, t);
    }
  }

  /** The last attribute stored under a key is the one the cache shows. */
  lemma {:induction false} LastSetShows(cfg: Config, s: State, path: Path, filler: string -> bool, es: seq<Effect>,
                                        key: Path, stat: Stat, t: Time)
    requires forall e :: e in es ==> InTime(cfg, e, t)
    requires LastSet(es, path, filler, key) == Some(stat)
    ensures Shows(AfterEffects(cfg, s, path, filler, es), key, stat, t)
    decreases |es|
  {
    var s' := AfterEffect(cfg, s, path, filler, es[0]);
    assert es[0] in es;
    if LastSet(es[1..], path, filler, key).Some? {
      LastSetShows(cfg, s', path, filler, es[1..], key, stat, t);
    } else {
      EffectSets(cfg, s, path, filler, es[0], key, stat, t);
      EffectsKeep(cfg, s', path, filler, es[1..], key, stat, t);
    }
  }

  // ---------------------------------------------------------------- from lines to effects

  /** The cache key under which a query stores the attributes of an entry. */
  function KeyOf(q: Query, name: string): Path {
    if q.filling then ChildKey(q.path, name) else q.dir + name
  }

  lemma KeysDiffer(q: Query, a: string, b: string)
    requires KeyOf(q, a) == KeyOf(q, b)
    ensures a == b
  {
    var d := if q.filling then (if |q.path| <= 1 then "" else q.path) + "/" else q.dir;
    assert KeyOf(q, a) == d + a && KeyOf(q, b) == d + b;
    assert a == (d + a)[|d|..] && b == (d + b)[|d|..];
  }

  lemma {:induction false} LastSetAppend(first: seq<Effect>, second: seq<Effect>, path: Path, filler: string -> bool,
      key: Path)
    ensures LastSet(first + second, path, filler, key) ==
            if LastSet(second, path, filler, key).Some? then LastSet(second, path, filler, key)
            else LastSet(first, path, filler, key)
    decreases |first|
  {
    if first == [] {
      assert first + second == second;
    } else {
      assert (first + second)[0] == first[0] && (first + second)[1..] == first[1..] + second;
      LastSetAppend(first[1..], second, path, filler, key);
    }
  }

  lemma {:induction false} EntrySets(q: Query, e: Entry, at: Tick, name: string)
    requires q.filling ==> q.filler(e.name)
    ensures LastSet(EntryEffects(e, q.dir, q.prefix, q.filling, at), q.path, q.filler, KeyOf(q, name)) ==
            if e.name == name then Some(e.stat) else None
  {
    if KeyOf(q, e.name) == KeyOf(q, name) { KeysDiffer(q, e.name, name); }
    var last := LastEffect(q, e, at);
    assert [last][1..] == [];
    assert LastSet([last], q.path, q.filler, KeyOf(q, name)) == SetBy(last, q.path, q.filler, KeyOf(q, name));
    if e.link != "" {
      var es := EntryEffects(e, q.dir, q.prefix, q.filling, at);
      assert es[1..] == [last];
    }
  }

  /** The last attribute the listing stores for a name is that of its last entry of the name. */
  lemma {:induction false} LinesSet(q: Query, parse: LineParser, lines: seq<string>, i: nat, clock: nat -> Tick,
      name: string)
    requires q.filling ==> forall n: string :: q.filler(n)
    ensures LastSet(Effects(q, parse, lines, i, clock), q.path, q.filler, KeyOf(q, name)) ==
            Lookup(Entries(parse, lines), name)
    decreases |lines|
  {
    if lines != [] {
      LinesSet(q, parse, lines[1..], i + 1, clock, name);
      LastSetAppend(LineEffects(q, parse, lines[0], clock(i)), Effects(q, parse, lines[1..], i + 1, clock),
                    q.path, q.filler, KeyOf(q, name));
      match parse(lines[0])
      case Some(e) =>
        EntrySets(q, e, clock(i), name);
        assert Entries(parse, lines)[0] == e && Entries(parse, lines)[1..] == Entries(parse, lines[1..]);
      case None =>
        assert Entries(parse, lines) == Entries(parse, lines[1..]);
    }
  }

  /** The `n` readings that a parse makes of the clock lie within the stat timeout before `t`. */
  predicate ClockWithin(cfg: Config, clock: nat -> Tick, i: nat, n: nat, t: Time) {
    forall k: nat :: i <= k < i + n ==> clock(k).cleanNow <= t <= clock(k).now + cfg.statTimeout
  }

  lemma {:induction false} EffectsInTime(cfg: Config, q: Query, parse: LineParser, lines: seq<string>, i: nat,
      clock: nat -> Tick, t: Time)
    requires ClockWithin(cfg, clock, i, |lines|, t)
    ensures forall e :: e in Effects(q, parse, lines, i, clock) ==> InTime(cfg, e, t)
    decreases |lines|
  {
    if lines != [] {
      EffectsInTime(cfg, q, parse, lines[1..], i + 1, clock, t);
      assert forall e :: e in LineEffects(q, parse, lines[0], clock(i)) ==> e.at == clock(i);
    }
  }

  // ---------------------------------------------------------------- the results of a query

  /** A query for a name finds it exactly when the listing has it, whatever else was asked for. */
  lemma {:induction false} FoundExactlyWhen(q: Query, r: Outcome, entries: seq<Entry>, f: string)
    requires q.name == Some(f)
    ensures Result(q, r, entries).found <==> r.found || exists i :: 0 <= i < |entries| && entries[i].name == f
    decreases |entries|
  {
    if entries != [] {
      var rest := entries[1..];
      FoundExactlyWhen(q, Noted(q, r, entries[0]), rest, f);
      assert forall i :: 0 <= i < |rest| ==> rest[i] == entries[i + 1];
      assert forall i :: 1 <= i < |entries| ==> entries[i] == rest[i - 1];
    }
  }

  /** A query without a name finds nothing, and one that does not want attributes stores none. */
  lemma {:induction false} AskedOnly(q: Query, r: Outcome, entries: seq<Entry>)
    ensures q.name == None ==> Result(q, r, entries).found == r.found
    ensures q.name == None || !q.wantStat ==> Result(q, r, entries).sbuf == r.sbuf
    ensures q.linkLen == 0 ==> Result(q, r, entries).linkBuf == r.linkBuf
    decreases |entries|
  {
    if entries != [] { AskedOnly(q, Noted(q, r, entries[0]), entries[1..]); }
  }

  function EntryNames(entries: seq<Entry>): (names: seq<string>)
    ensures |names| == |entries| && forall i :: 0 <= i < |entries| ==> names[i] == entries[i].name
  {
    if entries == [] then [] else [entries[0].name] + EntryNames(entries[1..])
  }

  lemma AppendName(front: seq<string>, name: string, names: seq<string>)
    ensures front + ([name] + names) == front + [name] + names
  {
  }

  /** A directory request hands every name to the filler, in the order of the listing. */
  lemma {:induction false} FilledInOrder(q: Query, r: Outcome, entries: seq<Entry>)
    ensures Result(q, r, entries).filled == r.filled + (if q.filling then EntryNames(entries) else [])
    decreases |entries|
  {
    if entries != [] {
      FilledInOrder(q, Noted(q, r, entries[0]), entries[1..]);
      AppendName(r.filled, entries[0].name, EntryNames(entries[1..]));
    }
  }

  /** The root and every directory asked for by an empty name: a directory, rwxr-xr-x. */
  lemma RootIsDirectory()
    ensures DIRECTORY_STAT.mode / 0x1000 == 4
    ensures DIRECTORY_STAT.mode % 0x1000 == 7 * 64 + 5 * 8 + 5
    ensures DIRECTORY_STAT.nlink == 1 && DIRECTORY_STAT.size == 1024
  {
  }

  /** The prefix goes in front of absolute links, and of no others. */
  lemma PrefixedLinks(prefix: string, rest: string, relative: string)
    requires relative == "" || relative[0] != '/'
    ensures RealLink(prefix, "/" + rest) == prefix + ("/" + rest)
    ensures RealLink(prefix, relative) == relative
  {
    assert "" + ("/" + rest) == "/" + rest;
  }

  /** The link buffer shows the front of the text, without its last characters only if it is longer
      than the buffer. */
  lemma FittedIsFront(text: string, size: nat)
    requires size > 0
    ensures Fitted(text, size) <= text
    ensures |Fitted(text, size)| == if |text| > size then size - 1 else |text|
  {
  }

  /** A query for the attributes of `f` finds the last entry of that name. */
  lemma {:induction false} ResultIsLookup(q: Query, r: Outcome, entries: seq<Entry>, f: string)
    requires q.name == Some(f) && q.wantStat
    ensures Result(q, r, entries).found == (r.found || Lookup(entries, f).Some?)
    ensures Result(q, r, entries).sbuf == if Lookup(entries, f).Some? then Lookup(entries, f).value else r.sbuf
    decreases |entries|
  {
    if entries != [] {
      ResultIsLookup(q, Noted(q, r, entries[0]), entries[1..], f);
    }
  }

  /** Sibling prefetch is exact: after any `parse_dir` call, for every name `f` in the listing, the
      cache answers for `f` within the stat timeout what `parse_dir` asked for `f` would have put
      into its stat buffer.  (The empty name is answered without reading the listing.) */
  lemma PrefetchIsExact(cfg: Config, s: State, q: Query, own: Query, list: string, parse: LineParser,
                        clock: nat -> Tick, f: string, t: Time)
    requires q.filling ==> forall n: string :: q.filler(n)
    requires own.name == Some(f) && f != "" && own.wantStat
    requires ClockWithin(cfg, clock, 0, |Lines(list)|, t)
    requires Lookup(Entries(parse, Lines(list)), f).Some?
    ensures
      var after := AfterEffects(cfg, s, q.path, q.filler, Effects(q, parse, Lines(list), 0, clock));
      var answer := Result(own, Outcome(false, ZERO_STAT, "", []), Entries(parse, Lines(list)));
      answer.found && CachedAttr(after, KeyOf(q, f), t) == Some(AttrReply.Found(answer.sbuf))
  {
    var entries := Entries(parse, Lines(list));
    LinesSet(q, parse, Lines(list), 0, clock, f);
    EffectsInTime(cfg, q, parse, Lines(list), 0, clock, t);
    LastSetShows(cfg, s, q.path, q.filler, Effects(q, parse, Lines(list), 0, clock), KeyOf(q, f), Lookup(entries,
        f).value, t);
    ResultIsLookup(own, Outcome(false, ZERO_STAT, "", []), entries, f);
  }

  // ---------------------------------------------------------------- links

  /** The text of the last link in the listing, whatever its name. */
  function LastLink(entries: seq<Entry>, prefix: string): Option<string> {
    if entries == [] then None
    else if LastLink(entries[1..], prefix).Some? then LastLink(entries[1..], prefix)
    else if entries[0].link != "" then Some(RealLink(prefix, entries[0].link)) else None
  }

  lemma {:induction false} LastLinkAppend(first: seq<Entry>, second: seq<Entry>, prefix: string)
    ensures LastLink(first + second, prefix) ==
            if LastLink(second, prefix).Some? then LastLink(second, prefix) else LastLink(first, prefix)
    decreases |first|
  {
    if first == [] {
      assert first + second == second;
    } else {
      assert (first + second)[0] == first[0] && (first + second)[1..] == first[1..] + second;
      LastLinkAppend(first[1..], second, prefix);
    }
  }

  lemma {:induction false} BufferIsLastLink(q: Query, r: Outcome, entries: seq<Entry>)
    requires q.linkLen > 0
    ensures Result(q, r, entries).linkBuf ==
            match LastLink(entries, q.prefix) case Some(text) => Fitted(text, q.linkLen) case None => r.linkBuf
    decreases |entries|
  {
    if entries != [] {
      BufferIsLastLink(q, Noted(q, r, entries[0]), entries[1..]);
    }
  }

  /** Every link of a listing overwrites the link buffer.  Reading the link `e` gives the text of
      `e` exactly when no link is listed after it, or the last one that is has the same text as far
      as the buffer shows it. */
  lemma ReadlinkIsRightExactlyWhen(q: Query, r: Outcome, before: seq<Entry>, e: Entry, later: seq<Entry>)
    requires q.name == Some(e.name) && q.linkLen > 0 && e.link != "" && Lookup(later, e.name).None?
    ensures Result(q, r, before + ([e] + later)).found
    ensures
      var own := Fitted(RealLink(q.prefix, e.link), q.linkLen);
      Result(q, r, before + ([e] + later)).linkBuf == own <==>
      LastLink(later, q.prefix).None? || Fitted(LastLink(later, q.prefix).value, q.linkLen) == own
  {
    FoundExactlyWhen(q, r, before + ([e] + later), e.name);
    assert (before + ([e] + later))[|before|] == e;
    BufferIsLastLink(q, r, before + ([e] + later));
    LastLinkAppend(before, [e] + later, q.prefix);
    LastLinkAppend([e], later, q.prefix);
    assert [e][1..] == [];
  }

  /** After the first `n` entries the text in the link buffer leaves room for the terminator. */
  predicate LeavesRoom(q: Query, r: Outcome, entries: seq<Entry>, n: nat)
    requires n <= |entries|
  {
    |Result(q, r, entries[..n]).linkBuf| < q.linkLen
  }

  /** The terminator is always written inside the link buffer of `linkLen` characters exactly when no
      link of the listing is just that long. */
  lemma LinksFitExactlyWhen(q: Query, r: Outcome, entries: seq<Entry>)
    requires q.linkLen > 0
    ensures (forall i :: 0 <= i < |entries| && entries[i].link != "" ==> LeavesRoom(q, r, entries, i + 1)) <==>
            (forall i :: 0 <= i < |entries| && entries[i].link != "" ==>
               |RealLink(q.prefix, entries[i].link)| != q.linkLen)
  {
    forall i | 0 <= i < |entries| && entries[i].link != ""
      ensures LeavesRoom(q, r, entries, i + 1) <==> |RealLink(q.prefix, entries[i].link)| != q.linkLen
    {
      BufferAfterLink(q, r, entries[..i], entries[i]);
      assert entries[..i + 1] == entries[..i] + [entries[i]];
    }
  }

  lemma BufferAfterLink(q: Query, r: Outcome, before: seq<Entry>, e: Entry)
    requires q.linkLen > 0 && e.link != ""
    ensures Result(q, r, before + [e]).linkBuf == Fitted(RealLink(q.prefix, e.link), q.linkLen)
  {
    BufferIsLastLink(q, r, before + [e]);
    LastLinkAppend(before, [e], q.prefix);
    assert [e][1..] == [];
  }

  /** Two links in one directory: asked for the first, `parse_dir` answers with the second. */
  lemma ReadlinkGivesSibling(a: Entry, b: Entry, size: nat)
    requires a.name != b.name && a.link != "" && b.link != "" && a.link != b.link
    requires |a.link| <= size && |b.link| <= size && size > 0
    ensures
      var q := Query("/", Some(a.name), false, size, "", false, "/", NoFiller);
      Result(q, Outcome(false, ZERO_STAT, "", []), [a, b]).linkBuf == b.link
  {
    var q := Query("/", Some(a.name), false, size, "", false, "/", NoFiller);
    assert [a, b][1..] == [b] && [b][1..] == [];
    assert LastLink([b], "") == Some(b.link);
    BufferIsLastLink(q, Outcome(false, ZERO_STAT, "", []), [a, b]);
  }
}
