/** `parse_dir`: from the text of a directory listing to cache entries, and to the entry looked for. */
module Listing {
  import opened Wrappers
  import opened Cache
  import opened CacheProxy

  /** What the line parsers find in a line; an empty link text means no link. */
  datatype Entry = Entry(name: string, stat: Stat, link: string)

  type LineParser = string -> Option<Entry>

  /** The attributes of the listed directory itself: a directory with mode 0755. */
  const DIRECTORY_STAT := Stat(0x4000 + 0x1ED, 1, 1024, 0)

  // ---------------------------------------------------------------- lines

  /** The first line feed at or after `from`, as `strchr` finds it. */
  function NextLf(list: string, from: nat): (r: Option<nat>)
    requires from <= |list|
    ensures r.Some? ==> from <= r.value < |list| && list[r.value] == '\n' && '\n' !in list[from..r.value]
    ensures r.None? ==> '\n' !in list[from..]
    decreases |list| - from
  {
    if from == |list| then None
    else if list[from] == '\n' then Some(from)
    else
      var r := NextLf(list, from + 1);
      assert r.Some? ==> list[from..r.value] == [list[from]] + list[from + 1..r.value];
      assert list[from..] == [list[from]] + list[from + 1..];
      r
  }

  function StripCr(line: string): string {
    if line != "" && line[|line| - 1] == '\r' then line[..|line| - 1] else line
  }

  /** The complete lines from `from` on, without LF or CRLF; text after the last LF does not count. */
  function LinesFrom(list: string, from: nat): seq<string>
    requires from <= |list|
    decreases |list| - from
  {
    match NextLf(list, from)
    case None => []
    case Some(lf) => [StripCr(list[from..lf])] + LinesFrom(list, lf + 1)
  }

  lemma {:induction false} LinesStep(list: string, from: nat)
    requires from <= |list| && NextLf(list, from).Some?
    ensures
      var lines := LinesFrom(list, from);
      lines != [] && lines[0] == StripCr(list[from..NextLf(list, from).value]) &&
      lines[1..] == LinesFrom(list, NextLf(list, from).value + 1)
  {
  }

  function Lines(list: string): seq<string> {
    LinesFrom(list, 0)
  }

  function Ended(line: string, crlf: bool): string {
    if crlf then line + "\r" else line
  }

  /** A listing made of lines that end in LF or in CRLF. */
  function Unlines(lines: seq<string>, crlf: seq<bool>): string
    requires |lines| == |crlf|
  {
    if lines == [] then ""
    else Ended(lines[0], crlf[0]) + "\n" + Unlines(lines[1..], crlf[1..])
  }

  predicate PlainLine(line: string) {
    '\n' !in line && (line != "" ==> line[|line| - 1] != '\r')
  }

  lemma {:induction false} NextLfAt(list: string, from: nat, line: string, rest: string)
    requires from <= |list| && list[from..] == line + "\n" + rest && '\n' !in line
    ensures NextLf(list, from) == Some(from + |line|)
    decreases |line|
  {
    assert list[from] == (line + "\n" + rest)[0];
    if line != "" {
      assert list[from + 1..] == list[from..][1..] == line[1..] + "\n" + rest;
      assert list[from] == line[0] && line[0] in line;
      NextLfAt(list, from + 1, line[1..], rest);
    }
  }

  lemma FirstLine(list: string, from: nat, ended: string, rest: string) returns (next: nat)
    requires from <= |list| && list[from..] == ended + "\n" + rest && '\n' !in ended
    ensures next <= |list| && list[next..] == rest
    ensures LinesFrom(list, from) == [StripCr(ended)] + LinesFrom(list, next)
  {
    next := from + |ended| + 1;
    var tail := list[from..];
    assert |tail| == |ended| + 1 + |rest| && tail[..|ended|] == ended && tail[|ended| + 1..] == rest;
    assert list[from..from + |ended|] == tail[..|ended|] && list[next..] == tail[|ended| + 1..];
    assert NextLf(list, from) == Some(from + |ended|) by { NextLfAt(list, from, ended, rest); }
  }

  lemma EndedStrips(line: string, crlf: bool)
    requires PlainLine(line)
    ensures StripCr(Ended(line, crlf)) == line && '\n' !in Ended(line, crlf)
  {
  }

  lemma CutFirst(list: string, from: nat, line: string, crlf: bool, rest: string) returns (next: nat)
    requires PlainLine(line) && from <= |list| && list[from..] == Ended(line, crlf) + "\n" + rest
    ensures next <= |list| && list[next..] == rest
    ensures LinesFrom(list, from) == [line] + LinesFrom(list, next)
  {
    EndedStrips(line, crlf);
    next := FirstLine(list, from, Ended(line, crlf), rest);
  }

  /** From `from` on the listing has these lines and text without a line feed. */
  predicate Holds(list: string, from: nat, lines: seq<string>, crlf: seq<bool>, tail: string) {
    |lines| == |crlf| && from <= |list| && list[from..] == Unlines(lines, crlf) + tail && '\n' !in tail &&
    forall i :: 0 <= i < |lines| ==> PlainLine(lines[i])
  }

  lemma OneLine(list: string, from: nat, lines: seq<string>, crlf: seq<bool>, tail: string) returns (next: nat)
    requires Holds(list, from, lines, crlf, tail) && lines != []
    ensures Holds(list, next, lines[1..], crlf[1..], tail)
    ensures LinesFrom(list, from) == [lines[0]] + LinesFrom(list, next)
  {
    var rest := Unlines(lines[1..], crlf[1..]);
    TailBehind(Ended(lines[0], crlf[0]), rest, tail);
    next := CutFirst(list, from, lines[0], crlf[0], rest + tail);
  }

  lemma TailBehind(line: string, rest: string, tail: string)
    ensures line + "\n" + rest + tail == line + "\n" + (rest + tail)
  {
  }

  lemma {:induction false} NoLine(list: string, from: nat)
    requires from <= |list| && '\n' !in list[from..]
    ensures LinesFrom(list, from) == []
  {
    forall i | from <= i < |list| ensures list[i] != '\n' { assert list[i] == list[from..][i - from]; }
  }

  lemma {:induction false} LinesOfUnlinesFrom(list: string, from: nat, lines: seq<string>, crlf: seq<bool>,
      tail: string)
    requires Holds(list, from, lines, crlf, tail)
    ensures LinesFrom(list, from) == lines
    decreases |lines|
  {
    if lines == [] {
      assert "" + tail == tail;
      NoLine(list, from);
    } else {
      var next := OneLine(list, from, lines, crlf, tail);
      LinesOfUnlinesFrom(list, next, lines[1..], crlf[1..], tail);
    }
  }

  /** Splitting undoes joining, whatever mix of endings was used; text behind the last line feed is
      not a line. */
  lemma LinesOfUnlines(lines: seq<string>, crlf: seq<bool>, tail: string)
    requires |lines| == |crlf| && '\n' !in tail && forall i :: 0 <= i < |lines| ==> PlainLine(lines[i])
    ensures Lines(Unlines(lines, crlf) + tail) == lines
  {
    var list := Unlines(lines, crlf) + tail;
    assert list[0..] == list;
    LinesOfUnlinesFrom(list, 0, lines, crlf, tail);
  }

  // ---------------------------------------------------------------- entries

  function Entries(parse: LineParser, lines: seq<string>): seq<Entry> {
    if lines == [] then []
    else (match parse(lines[0]) case Some(e) => [e] case None => []) + Entries(parse, lines[1..])
  }

  /** The attributes of the last entry of that name. */
  function Lookup(entries: seq<Entry>, name: string): Option<Stat> {
    if entries == [] then None
    else
      var later := Lookup(entries[1..], name);
      if later.Some? then later
      else if entries[0].name == name then Some(entries[0].stat) else None
  }

  function RealLink(prefix: string, link: string): string {
    if link != "" && link[0] == '/' && prefix != "" then prefix + link else link
  }

  /** What fits into a link buffer of `size` characters. */
  function Fitted(text: string, size: nat): string
    requires size > 0
  {
    if |text| > size then text[..size - 1] else text
  }

  /** What one entry does to the cache: its link, then its attributes or a call of the filler. */
  function EntryEffects(e: Entry, dir: string, prefix: string, filling: bool, at: Tick): seq<Effect> {
    (if e.link != "" then [SetLink(dir + e.name, RealLink(prefix, e.link), at)] else []) +
    [if filling then Fill(e.name, e.stat, at) else SetAttr(dir + e.name, e.stat, at)]
  }

  lemma {:induction false} EffectsAppend(cfg: Config, s: State, path: Path, filler: string -> bool,
      first: seq<Effect>, second: seq<Effect>)
    ensures AfterEffects(cfg, s, path, filler, first + second) ==
            AfterEffects(cfg, AfterEffects(cfg, s, path, filler, first), path, filler, second)
    decreases |first|
  {
    if first == [] {
      assert first + second == second;
    } else {
      assert (first + second)[1..] == first[1..] + second && (first + second)[0] == first[0];
      EffectsAppend(cfg, AfterEffect(cfg, s, path, filler, first[0]), path, filler, first[1..], second);
    }
  }

  // ---------------------------------------------------------------- the loop

  /** Who is asking: what the listing is read for, and where its entries go. */
  datatype Query = Query(
    dir: string, name: Option<string>, wantStat: bool, linkLen: nat,
    prefix: string, filling: bool, path: Path, filler: string -> bool)

  /** The results of `parse_dir`: the stat buffer, the link buffer and the names filled in. */
  datatype Outcome = Outcome(found: bool, sbuf: Stat, linkBuf: string, filled: seq<string>)

  function Noted(q: Query, r: Outcome, e: Entry): Outcome {
    var hit := q.name == Some(e.name);
    Outcome(r.found || hit,
          if hit && q.wantStat then e.stat else r.sbuf,
          if e.link != "" && q.linkLen > 0 then Fitted(RealLink(q.prefix, e.link), q.linkLen) else r.linkBuf,
          if q.filling then r.filled + [e.name] else r.filled)
  }

  /** The results once `entries` have been seen after `r`. */
  function Result(q: Query, r: Outcome, entries: seq<Entry>): Outcome
    decreases |entries|
  {
    if entries == [] then r else Result(q, Noted(q, r, entries[0]), entries[1..])
  }

  /** The last thing an entry does. */
  function LastEffect(q: Query, e: Entry, at: Tick): Effect {
    if q.filling then Fill(e.name, e.stat, at) else SetAttr(q.dir + e.name, e.stat, at)
  }

  lemma {:induction false} EntryEffectsUnfold(cfg: Config, s: State, q: Query, e: Entry, at: Tick)
    ensures AfterEffects(cfg, s, q.path, q.filler, EntryEffects(e, q.dir, q.prefix, q.filling, at)) ==
            var text := RealLink(q.prefix, e.link);
            var linked := if e.link != "" then AddedLink(cfg, s, q.dir + e.name, text, |text| + 1, at) else s;
            AfterEffect(cfg, linked, q.path, q.filler, LastEffect(q, e, at))
  {
    var effects, last := EntryEffects(e, q.dir, q.prefix, q.filling, at), LastEffect(q, e, at);
    assert [last][1..] == [];
    if e.link != "" {
      var link := SetLink(q.dir + e.name, RealLink(q.prefix, e.link), at);
      assert effects == [link, last] && effects[1..] == [last];
      var s' := AfterEffect(cfg, s, q.path, q.filler, link);
      assert AfterEffects(cfg, s', q.path, q.filler, [last]) == AfterEffect(cfg, s', q.path, q.filler, last);
    } else {
      assert effects == [last];
    }
  }

  /** The body of the loop for a line that was understood. */
  method NoteEntry(q: Query, r: Outcome, e: Entry, at: Tick, cache: Proxy) returns (r': Outcome)
    modifies cache
    ensures r' == Noted(q, r, e)
    ensures cache.Table() == AfterEffects(cache.config, old(cache.Table()), q.path, q.filler,
                                          EntryEffects(e, q.dir, q.prefix, q.filling, at))
  {
    r' := r;
    var fullPath := q.dir + e.name;
    EntryEffectsUnfold(cache.config, cache.Table(), q, e, at);
    if e.link != "" {
      var realLink := RealLink(q.prefix, e.link);
      cache.AddLink(fullPath, realLink, |realLink| + 1, at);
      if q.linkLen > 0 {
        r' := r'.(linkBuf := Fitted(realLink, q.linkLen));
      }
    }
    if q.filling {
      var _ := cache.ReceiveOne(q.path, q.filler, Fill(e.name, e.stat, at));
      r' := r'.(filled := r'.filled + [e.name]);
    } else {
      cache.AddAttr(fullPath, Some(e.stat), at);
    }
    if q.name == Some(e.name) {
      if q.wantStat {
        r' := r'.(sbuf := e.stat);
      }
      r' := r'.(found := true);
    }
  }

  function LineEffects(q: Query, parse: LineParser, line: string, at: Tick): seq<Effect> {
    match parse(line)
    case Some(e) => EntryEffects(e, q.dir, q.prefix, q.filling, at)
    case None => []
  }

  function NotedLine(q: Query, r: Outcome, parse: LineParser, line: string): Outcome {
    match parse(line)
    case Some(e) => Noted(q, r, e)
    case None => r
  }

  /** The body of the loop. */
  method NoteLine(q: Query, r: Outcome, parse: LineParser, line: string, at: Tick, cache: Proxy) returns (r': Outcome)
    modifies cache
    ensures r' == NotedLine(q, r, parse, line)
    ensures cache.Table() == AfterEffects(cache.config, old(cache.Table()), q.path, q.filler, LineEffects(q, parse,
        line, at))
  {
    var parsed := parse(line);
    match parsed {
      case Some(e) => r' := NoteEntry(q, r, e, at, cache);
      case None => r' := r;
    }
  }

  /** The effects of the lines, the `i`-th line being handled at `clock(i)`. */
  function Effects(q: Query, parse: LineParser, lines: seq<string>, i: nat, clock: nat -> Tick): seq<Effect>
    decreases |lines|
  {
    if lines == [] then []
    else LineEffects(q, parse, lines[0], clock(i)) + Effects(q, parse, lines[1..], i + 1, clock)
  }

  lemma {:induction false} SplitResult(q: Query, r: Outcome, parse: LineParser, lines: seq<string>)
    requires lines != []
    ensures Result(q, r, Entries(parse, lines)) == Result(q, NotedLine(q, r, parse, lines[0]), Entries(parse,
        lines[1..]))
  {
    match parse(lines[0])
    case Some(e) => assert Entries(parse, lines)[1..] == Entries(parse, lines[1..]);
    case None => assert Entries(parse, lines) == Entries(parse, lines[1..]);
  }

  lemma {:induction false} SplitEffects(cfg: Config, s: State, q: Query, parse: LineParser, lines: seq<string>,
      i: nat, clock: nat -> Tick)
    requires lines != []
    ensures
      AfterEffects(cfg, s, q.path, q.filler, Effects(q, parse, lines, i, clock)) ==
      AfterEffects(cfg, AfterEffects(cfg, s, q.path, q.filler, LineEffects(q, parse, lines[0], clock(i))), q.path,
          q.filler,
                   Effects(q, parse, lines[1..], i + 1, clock))
  {
    EffectsAppend(cfg, s, q.path, q.filler, LineEffects(q, parse, lines[0], clock(i)), Effects(q, parse, lines[1..],
        i + 1, clock));
  }

  /** Lines 233-238: cut the line that ends at `lf`, step over its ending and find the next line feed. */
  method CutLine(list: string, start: nat, lf: nat) returns (line: string, next: nat, nextLf: Option<nat>)
    requires start <= |list| && NextLf(list, start) == Some(lf)
    ensures next <= |list| && nextLf == NextLf(list, next) && next > start
    ensures LinesFrom(list, start) != [] && LinesFrom(list, start)[0] == line
    ensures LinesFrom(list, start)[1..] == LinesFrom(list, next)
  {
    var end := lf;
    if end > start && list[end - 1] == '\r' {
      end := end - 1;
      assert list[start..end] == list[start..lf][..lf - start - 1];
    }
    line := list[start..end];
    next := if list[end] == '\r' then end + 2 else end + 1;
    nextLf := NextLf(list, next);
    LinesStep(list, start);
  }

  /** The results and the cache once the remaining lines have been handled. */
  function Finish(cfg: Config, q: Query, parse: LineParser, lines: seq<string>, i: nat, clock: nat -> Tick,
                  r: Outcome, s: State): (Outcome, State)
    decreases |lines|
  {
    if lines == [] then (r, s)
    else Finish(cfg, q, parse, lines[1..], i + 1, clock, NotedLine(q, r, parse, lines[0]),
                AfterEffects(cfg, s, q.path, q.filler, LineEffects(q, parse, lines[0], clock(i))))
  }

  lemma {:induction false} FinishIs(cfg: Config, q: Query, parse: LineParser, lines: seq<string>, i: nat,
                                    clock: nat -> Tick, r: Outcome, s: State)
    ensures Finish(cfg, q, parse, lines, i, clock, r, s).0 == Result(q, r, Entries(parse, lines))
    ensures Finish(cfg, q, parse, lines, i, clock, r, s).1 ==
            AfterEffects(cfg, s, q.path, q.filler, Effects(q, parse, lines, i, clock))
    decreases |lines|
  {
    if lines != [] {
      SplitResult(q, r, parse, lines);
      SplitEffects(cfg, s, q, parse, lines, i, clock);
      FinishIs(cfg, q, parse, lines[1..], i + 1, clock, NotedLine(q, r, parse, lines[0]),
               AfterEffects(cfg, s, q.path, q.filler, LineEffects(q, parse, lines[0], clock(i))));
    }
  }

  /** The line loop of `parse_dir`. */
  method ParseLines(list: string, q: Query, parse: LineParser, clock: nat -> Tick, cache: Proxy) returns (r: Outcome)
    modifies cache
    ensures (r, cache.Table()) == Finish(cache.config, q, parse, Lines(list), 0, clock,
                                         Outcome(false, ZERO_STAT, "", []), old(cache.Table()))
  {
    r := Outcome(false, ZERO_STAT, "", []);
    var start, i := 0, 0;
    var lf := NextLf(list, start);
    ghost var lines := Lines(list);
    ghost var end := Finish(cache.config, q, parse, lines, 0, clock, r, cache.Table());
    while lf.Some?
      invariant start <= |list| && lf == NextLf(list, start) && lines == LinesFrom(list, start)
      invariant Finish(cache.config, q, parse, lines, i, clock, r, cache.Table()) == end
      decreases |list| - start
    {
      var line;
      line, start, lf := CutLine(list, start, lf.value);
      FinishStep(cache.config, q, parse, lines, i, clock, r, cache.Table());
      r := NoteLine(q, r, parse, line, clock(i), cache);
      lines, i := lines[1..], i + 1;
    }
  }

  lemma {:induction false} FinishStep(cfg: Config, q: Query, parse: LineParser, lines: seq<string>, i: nat,
                                      clock: nat -> Tick, r: Outcome, s: State)
    requires lines != []
    ensures Finish(cfg, q, parse, lines, i, clock, r, s) ==
            Finish(cfg, q, parse, lines[1..], i + 1, clock, NotedLine(q, r, parse, lines[0]),
                   AfterEffects(cfg, s, q.path, q.filler, LineEffects(q, parse, lines[0], clock(i))))
  {
  }

  /** `parse_dir`. */
  method ParseDir(list: string, q: Query, parse: LineParser, clock: nat -> Tick, cache: Proxy) returns (r: Outcome)
    modifies cache
    ensures q.name == Some("") && q.wantStat ==>
              r == Outcome(true, DIRECTORY_STAT, "", []) && cache.Table() == old(cache.Table())
    ensures !(q.name == Some("") && q.wantStat) ==>
              && r == Result(q, Outcome(false, ZERO_STAT, "", []), Entries(parse, Lines(list)))
              && cache.Table() == AfterEffects(cache.config, old(cache.Table()), q.path, q.filler,
                                               Effects(q, parse, Lines(list), 0, clock))
  {
    if q.name == Some("") && q.wantStat {
      return Outcome(true, DIRECTORY_STAT, "", []);
    }
    FinishIs(cache.config, q, parse, Lines(list), 0, clock, Outcome(false, ZERO_STAT, "", []), cache.Table());
    r := ParseLines(list, q, parse, clock, cache);
  }
}
