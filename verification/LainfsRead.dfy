/**
 tools/lainfs_check_host.c: resolving a path and reading a file back.
 */
module LainfsRead {
  import opened LainfsFormat
  import opened LainfsCheck

  type Byte = x: int | 0 <= x < 256
  type Block = b: seq<Byte> | |b| == BLOCK_SIZE witness seq(BLOCK_SIZE, _ => 0)

  const COMPONENT_SIZE: int := 32

  // ---- Paths -----------------------------------------------------------------------------------------

  predicate IsSeparator(c: char)
  {
    c == '/' || c == '\\'
  }

  /** The first position from `pos` on that is no separator. */
  function SkipSeparators(path: string, pos: nat): (r: nat)
    requires pos <= |path|
    ensures pos <= r <= |path|
    decreases |path| - pos
  {
    if pos < |path| && IsSeparator(path[pos]) then SkipSeparators(path, pos + 1) else pos
  }

  /** The end of the component that starts at `pos`. */
  function ComponentEnd(path: string, pos: nat): (r: nat)
    requires pos <= |path|
    ensures pos <= r <= |path|
    ensures pos < |path| && !IsSeparator(path[pos]) ==> pos < r
    decreases |path| - pos
  {
    if pos < |path| && !IsSeparator(path[pos]) then ComponentEnd(path, pos + 1) else pos
  }

  /** find_entry_in_dir: the first entry of that type, parent and name, or |dir|. */
  function FindEntry(dir: seq<Entry>, parent: nat, name: string, used: nat, from: nat): (r: nat)
    requires from <= |dir|
    ensures from <= r <= |dir|
    ensures r < |dir| ==> dir[r].used == used && dir[r].parent == parent && dir[r].name == name
    ensures forall i :: from <= i < r ==> !(dir[i].used == used && dir[i].parent == parent && dir[i].name == name)
    decreases |dir| - from
  {
    if from == |dir| || (dir[from].used == used && dir[from].parent == parent && dir[from].name == name)
    then from
    else FindEntry(dir, parent, name, used, from + 1)
  }

  datatype Resolved = NotFound | Root | Found(index: nat)

  /** resolve_path from position `pos` inside directory `parent`. */
  function Resolve(dir: seq<Entry>, path: string, pos: nat, parent: nat): Resolved
    requires pos <= |path|
    decreases |path| - pos
  {
    var start := SkipSeparators(path, pos);
    if start == |path| then Root else
    var end := ComponentEnd(path, start);
    if end == start || end - start >= COMPONENT_SIZE then NotFound else
    var name := path[start..end];
    var rest := SkipSeparators(path, end);
    var d := FindEntry(dir, parent, name, DIR, 0);
    if d < |dir| then
      if rest == |path| then Found(d) else Resolve(dir, path, rest, d + 1)
    else
      var f := FindEntry(dir, parent, name, FILE, 0);
      if f < |dir| && rest == |path| then Found(f) else NotFound
  }

  method FindEntryInDir(dir: array<Entry>, parent: nat, name: string, used: nat) returns (r: nat)
    ensures r == FindEntry(dir[..], parent, name, used, 0)
  {
    r := 0;
    while r < dir.Length
      invariant 0 <= r <= dir.Length
      invariant FindEntry(dir[..], parent, name, used, 0) == FindEntry(dir[..], parent, name, used, r)
    {
      if dir[r].used == used && dir[r].parent == parent && dir[r].name == name { return; }
      r := r + 1;
    }
  }

  /** The loop over slashes and backslashes. */
  method PassSeparators(path: string, pos: nat) returns (next: nat)
    requires pos <= |path|
    ensures next == SkipSeparators(path, pos)
  {
    next := pos;
    while next < |path| && IsSeparator(path[next])
      invariant pos <= next <= |path| && SkipSeparators(path, pos) == SkipSeparators(path, next)
    {
      next := next + 1;
    }
  }

  /** path_next_component: status 1 with a component, 0 at the end, -1 when the component is too long. */
  method NextComponent(path: string, pos: nat) returns (status: int, component: string, next: nat)
    requires pos <= |path|
    ensures var start := SkipSeparators(path, pos);
      if start == |path| then status == 0
      else if ComponentEnd(path, start) - start >= COMPONENT_SIZE then status == -1
      else status == 1 && next == ComponentEnd(path, start) && component == path[start..next]
    ensures next <= |path|
  {
    next := PassSeparators(path, pos);
    component := "";
    hide SkipSeparators;
    if next == |path| { return 0, component, next; }
    ghost var start := next;
    while next < |path| && !IsSeparator(path[next])
      invariant start <= next <= |path| && ComponentEnd(path, start) == ComponentEnd(path, next)
      invariant component == path[start..next] && |component| < COMPONENT_SIZE
    {
      if |component| + 1 >= COMPONENT_SIZE {
        assert ComponentEnd(path, next) > next;
        return -1, component, next;
      }
      component := component + [path[next]];
      next := next + 1;
    }
    return 1, component, next;
  }

  /** resolve_path. */
  method ResolvePath(dir: array<Entry>, path: string) returns (r: Resolved)
    ensures r == Resolve(dir[..], path, 0, 0)
  {
    hide FindEntry, ComponentEnd, SkipSeparators;
    var pos: nat, parent: nat := 0, 0;
    while true
      invariant pos <= |path| && Resolve(dir[..], path, 0, 0) == Resolve(dir[..], path, pos, parent)
      decreases |path| - pos
    {
      var status, component, next := NextComponent(path, pos);
      ghost var start := SkipSeparators(path, pos);
      StopsAtName(path, pos);
      if status == 0 { return Root; }
      if status < 0 { return NotFound; }
      var d := FindEntryInDir(dir, parent, component, DIR);
      var rest := PassSeparators(path, next);
      if d < dir.Length {
        if rest == |path| { return Found(d); }
        pos, parent := rest, d + 1;
      } else {
        var f := FindEntryInDir(dir, parent, component, FILE);
        if f == dir.Length || rest != |path| { return NotFound; }
        return Found(f);
      }
    }
  }

  /** Skipping separators leaves a component of at least one character, or the end. */
  lemma {:induction false} StopsAtName(path: string, pos: nat)
    requires pos <= |path|
    ensures var s := SkipSeparators(path, pos); s < |path| ==> !IsSeparator(path[s])
    decreases |path| - pos
  {
    if pos < |path| && IsSeparator(path[pos]) { StopsAtName(path, pos + 1); }
  }

  // ---- What a path names -------------------------------------------------------------------------------

  /** Any number of slashes and backslashes. */
  predicate Slashes(s: string)
  {
    forall k :: 0 <= k < |s| ==> s[k] == '/' || s[k] == '\\'
  }

  /** One or more other characters. */
  predicate Word(s: string)
  {
    s != "" && forall k :: 0 <= k < |s| ==> s[k] != '/' && s[k] != '\\'
  }

  /** A path taken apart: slashes and then nothing, or a name and the rest. */
  datatype Path = End(sep: string) | Step(sep: string, name: string, rest: Path)

  function Text(p: Path): string
  {
    match p
    case End(sep) => sep
    case Step(sep, name, rest) => sep + (name + Text(rest))
  }

  /** Names with slashes between them, and perhaps around them. */
  predicate Spelled(p: Path)
  {
    Slashes(p.sep) && (p.Step? ==> Word(p.name) && Spelled(p.rest) && (p.rest.Step? ==> p.rest.sep != ""))
  }

  function NamesIn(p: Path): seq<string>
  {
    if p.End? then [] else [p.name] + NamesIn(p.rest)
  }

  predicate IsEntry(e: Entry, parent: nat, name: string, used: nat)
  {
    e.used == used && e.parent == parent && e.name == name
  }

  /** Entry i is the first of that type, parent and name. */
  predicate First(dir: seq<Entry>, i: nat, parent: nat, name: string, used: nat)
  {
    i < |dir| && IsEntry(dir[i], parent, name, used) && forall j :: 0 <= j < i ==> !IsEntry(dir[j], parent, name, used)
  }

  predicate None(dir: seq<Entry>, parent: nat, name: string, used: nat)
  {
    forall j :: 0 <= j < |dir| ==> !IsEntry(dir[j], parent, name, used)
  }

  /** The id of the directory in which name k is looked up. */
  function ParentOf(ids: seq<nat>, top: nat, k: nat): nat
    requires k <= |ids|
  {
    if k == 0 then top else ids[k - 1]
  }

  /** The names lead from the directory `top` to ids: through directories, and at the end to one, or else to a file. */
  predicate Leads(dir: seq<Entry>, names: seq<string>, top: nat, ids: seq<nat>)
  {
    && |ids| == |names| && (forall k :: 0 <= k < |ids| ==> ids[k] >= 1 && |names[k]| < COMPONENT_SIZE)
    && forall k :: 0 <= k < |ids| ==> Link(dir, names, top, ids, k)
  }

  predicate Link(dir: seq<Entry>, names: seq<string>, top: nat, ids: seq<nat>, k: nat)
    requires |ids| == |names| && k < |ids| && ids[k] >= 1
  {
    var p := ParentOf(ids, top, k);
    || First(dir, ids[k] - 1, p, names[k], DIR)
    || (k == |ids| - 1 && None(dir, p, names[k], DIR) && First(dir, ids[k] - 1, p, names[k], FILE))
  }

  /** Some way along the names ends at entry i. */
  ghost predicate EndsIn(dir: seq<Entry>, names: seq<string>, top: nat, i: nat)
  {
    names != [] && exists ids :: Leads(dir, names, top, ids) && ids[|ids| - 1] == i + 1
  }

  lemma {:induction false} SkipsSlashes(path: string, pos: nat, end: nat)
    requires pos <= end <= |path| && Slashes(path[pos..end]) && (end < |path| ==> !IsSeparator(path[end]))
    ensures SkipSeparators(path, pos) == end
    decreases end - pos
  {
    if pos < end {
      assert path[pos..end][0] == path[pos] && path[pos..end][1..] == path[pos + 1..end];
      SkipsSlashes(path, pos + 1, end);
    }
  }

  lemma {:induction false} ReadsWord(path: string, pos: nat, end: nat)
    requires pos <= end <= |path| && (end < |path| ==> IsSeparator(path[end]))
    requires forall k :: pos <= k < end ==> !IsSeparator(path[k])
    ensures ComponentEnd(path, pos) == end
    decreases end - pos
  {
    if pos < end { ReadsWord(path, pos + 1, end); }
  }

  lemma CutPrefix(path: string, pos: nat, s: string, tail: string)
    requires pos <= |path| && path[pos..] == s + tail
    ensures pos + |s| <= |path| && path[pos..pos + |s|] == s && path[pos + |s|..] == tail
  {
    assert path[pos..][..|s|] == s && path[pos..][|s|..] == tail;
  }

  lemma WordHere(path: string, start: nat, end: nat)
    requires start <= end <= |path| && Word(path[start..end]) && (end < |path| ==> IsSeparator(path[end]))
    ensures start < end && ComponentEnd(path, start) == end && !IsSeparator(path[start])
  {
    forall k | start <= k < end ensures !IsSeparator(path[k]) { assert path[k] == path[start..end][k - start]; }
    ReadsWord(path, start, end);
  }

  /** What follows the first slashes. */
  function Trimmed(p: Path): string
  {
    if p.End? then "" else p.name + Text(p.rest)
  }

  lemma TextOf(p: Path)
    ensures Text(p) == p.sep + Trimmed(p) && Text(p.(sep := "")) == Trimmed(p)
  {
    assert p.sep + "" == p.sep && "" + Trimmed(p) == Trimmed(p);
  }

  /** The slashes at the front are skipped. */
  lemma FirstSlashes(path: string, pos: nat, p: Path)
    requires pos <= |path| && path[pos..] == Text(p) && Spelled(p)
    ensures var start := pos + |p.sep|;
            && start <= |path| && SkipSeparators(path, pos) == start && path[start..] == Trimmed(p)
            && (start == |path| <==> p.End?)
  {
    TextOf(p);
    CutPrefix(path, pos, p.sep, Trimmed(p));
    var start := pos + |p.sep|;
    if p.Step? { assert path[start] == path[start..][0] == p.name[0]; }
    SkipsSlashes(path, pos, start);
  }

  /** Then the first name is cut off. */
  lemma FirstWord(path: string, start: nat, p: Path)
    requires start <= |path| && p.Step? && path[start..] == p.name + Text(p.rest) && Spelled(p)
    ensures var end := start + |p.name|;
            && start < end <= |path| && path[start..end] == p.name && ComponentEnd(path, start) == end
            && path[end..] == Text(p.rest)
  {
    CutPrefix(path, start, p.name, Text(p.rest));
    TextOf(p.rest);
    var end := start + |p.name|;
    if end < |path| { assert path[end] == path[end..][0] == p.rest.sep[0]; }
    hide Text;
    WordHere(path, start, end);
  }

  /** From pos on the path reads p. */
  predicate Reads(path: string, pos: nat, p: Path)
  {
    pos <= |path| && path[pos..] == Text(p) && Spelled(p)
  }

  /** The rest of a path behind its first name and the slashes there. */
  lemma RestReads(path: string, end: nat, p: Path) returns (rest: nat)
    requires Reads(path, end, p)
    ensures end <= rest <= |path| && SkipSeparators(path, end) == rest && (rest == |path| <==> p.End?)
    ensures Reads(path, rest, p.(sep := "")) && NamesIn(p.(sep := "")) == NamesIn(p)
  {
    hide Text, SkipSeparators;
    FirstSlashes(path, end, p);
    TextOf(p);
    rest := end + |p.sep|;
  }

  lemma NoParts(path: string, pos: nat, p: Path)
    requires Reads(path, pos, p) && p.End?
    ensures pos <= |path| && SkipSeparators(path, pos) == |path|
  {
    FirstSlashes(path, pos, p);
  }

  /** The first name of a path, and what follows it. */
  lemma FirstParts(path: string, pos: nat, p: Path) returns (start: nat, end: nat, rest: nat)
    requires Reads(path, pos, p) && p.Step?
    ensures pos <= start < end <= rest <= |path|
    ensures SkipSeparators(path, pos) == start && ComponentEnd(path, start) == end && SkipSeparators(path, end) == rest
    ensures path[start..end] == p.name && (rest == |path| <==> p.rest.End?) && Reads(path, rest, p.rest.(sep := ""))
    ensures NamesIn(p) == [p.name] + NamesIn(p.rest.(sep := ""))
  {
    hide Text, SkipSeparators, ComponentEnd, Slashes, Word;
    FirstSlashes(path, pos, p);
    start := pos + |p.sep|;
    FirstWord(path, start, p);
    end := start + |p.name|;
    rest := RestReads(path, end, p.rest);
  }

  lemma FoundFirst(dir: seq<Entry>, parent: nat, name: string, used: nat, i: nat)
    ensures var r := FindEntry(dir, parent, name, used, 0);
            && (r < |dir| <==> !None(dir, parent, name, used))
            && (First(dir, i, parent, name, used) <==> i == r < |dir|)
  {
    var r := FindEntry(dir, parent, name, used, 0);
    if r < |dir| { assert IsEntry(dir[r], parent, name, used); }
    if First(dir, i, parent, name, used) { assert IsEntry(dir[i], parent, name, used); }
  }

  lemma Prepend(dir: seq<Entry>, names: seq<string>, top: nat, d: nat, ids: seq<nat>)
    requires |names| > 1 && First(dir, d, top, names[0], DIR) && |names[0]| < COMPONENT_SIZE
    requires Leads(dir, names[1..], d + 1, ids)
    ensures Leads(dir, names, top, [d + 1] + ids)
  {
    hide First, None;
    var all := [d + 1] + ids;
    forall k | 0 <= k < |all| ensures Link(dir, names, top, all, k) {
      if k > 0 { assert Link(dir, names[1..], d + 1, ids, k - 1); }
    }
  }

  lemma Behead(dir: seq<Entry>, names: seq<string>, top: nat, d: nat, all: seq<nat>)
    requires |names| > 1 && First(dir, d, top, names[0], DIR) && Leads(dir, names, top, all)
    ensures Leads(dir, names[1..], d + 1, all[1..])
  {
    assert Link(dir, names, top, all, 0);
    FoundFirst(dir, top, names[0], DIR, d);
    FoundFirst(dir, top, names[0], DIR, all[0] - 1);
    hide First, None;
    var ids, rest, below := all[1..], names[1..], d + 1;
    forall k | 0 <= k < |ids| ensures Link(dir, rest, below, ids, k) {
      assert Link(dir, names, top, all, k + 1);
    }
  }

  /** One step along the names. */
  lemma EndsInStep(dir: seq<Entry>, names: seq<string>, top: nat, d: nat, i: nat)
    requires |names| > 1 && First(dir, d, top, names[0], DIR) && |names[0]| < COMPONENT_SIZE
    ensures EndsIn(dir, names, top, i) <==> EndsIn(dir, names[1..], d + 1, i)
  {
    hide First, Link;
    if EndsIn(dir, names[1..], d + 1, i) {
      var ids :| Leads(dir, names[1..], d + 1, ids) && ids[|ids| - 1] == i + 1;
      Prepend(dir, names, top, d, ids);
      assert ([d + 1] + ids)[|ids|] == i + 1;
    }
    if EndsIn(dir, names, top, i) {
      var all :| Leads(dir, names, top, all) && all[|all| - 1] == i + 1;
      Behead(dir, names, top, d, all);
      assert all[1..][|all| - 2] == i + 1;
    }
  }

  lemma FirstLink(dir: seq<Entry>, names: seq<string>, top: nat, all: seq<nat>)
    requires names != [] && Leads(dir, names, top, all)
    ensures |names[0]| < COMPONENT_SIZE && (|names| > 1 ==> !None(dir, top, names[0], DIR))
  {
    assert Link(dir, names, top, all, 0);
    FoundFirst(dir, top, names[0], DIR, all[0] - 1);
  }

  /** Nothing is found beyond a name that is no directory. */
  lemma EndsInNone(dir: seq<Entry>, names: seq<string>, top: nat, i: nat)
    requires names != []
    requires |names[0]| >= COMPONENT_SIZE || (|names| > 1 && None(dir, top, names[0], DIR))
    ensures !EndsIn(dir, names, top, i)
  {
    hide None, Leads;
    if EndsIn(dir, names, top, i) {
      var all :| Leads(dir, names, top, all);
      FirstLink(dir, names, top, all);
    }
  }

  lemma EndsInLast(dir: seq<Entry>, names: seq<string>, top: nat, i: nat)
    requires |names| == 1 && |names[0]| < COMPONENT_SIZE
    ensures EndsIn(dir, names, top, i) <==>
            || First(dir, i, top, names[0], DIR)
            || (None(dir, top, names[0], DIR) && First(dir, i, top, names[0], FILE))
  {
    hide First, None;
    if EndsIn(dir, names, top, i) {
      var all :| Leads(dir, names, top, all) && all[|all| - 1] == i + 1;
      assert Link(dir, names, top, all, 0);
    }
    if First(dir, i, top, names[0], DIR)
       || (None(dir, top, names[0], DIR) && First(dir, i, top, names[0], FILE)) {
      var ids: seq<nat> := [i + 1];
      assert Link(dir, names, top, ids, 0) && Leads(dir, names, top, ids);
    }
  }

  /** What the first name makes of the answer for the names behind it. */
  function FirstName(dir: seq<Entry>, names: seq<string>, top: nat, rest: Resolved): Resolved
    requires names != []
  {
    var d, f := FindEntry(dir, top, names[0], DIR, 0), FindEntry(dir, top, names[0], FILE, 0);
    if |names[0]| >= COMPONENT_SIZE then NotFound
    else if d < |dir| then if |names| == 1 then Found(d) else rest
    else if f < |dir| && |names| == 1 then Found(f) else NotFound
  }

  lemma FirstNameEnds(dir: seq<Entry>, names: seq<string>, top: nat, rest: Resolved, i: nat)
    requires names != []
    requires var d := FindEntry(dir, top, names[0], DIR, 0);
             |names| > 1 ==> rest != Root && (rest == Found(i) <==> EndsIn(dir, names[1..], d + 1, i))
    ensures FirstName(dir, names, top, rest) != Root
    ensures FirstName(dir, names, top, rest) == Found(i) <==> EndsIn(dir, names, top, i)
  {
    hide FindEntry, EndsIn, First, None;
    var d := FindEntry(dir, top, names[0], DIR, 0);
    FoundFirst(dir, top, names[0], DIR, i);
    FoundFirst(dir, top, names[0], FILE, i);
    if |names[0]| >= COMPONENT_SIZE {
      EndsInNone(dir, names, top, i);
    } else if |names| == 1 {
      EndsInLast(dir, names, top, i);
    } else if d == |dir| {
      EndsInNone(dir, names, top, i);
    } else {
      FoundFirst(dir, top, names[0], DIR, d);
      EndsInStep(dir, names, top, d, i);
    }
  }

  /** Resolving the first name of a path. */
  lemma ResolvesFirst(dir: seq<Entry>, path: string, pos: nat, p: Path, top: nat) returns (rest: nat)
    requires Reads(path, pos, p) && p.Step?
    ensures Reads(path, rest, p.rest.(sep := "")) && NamesIn(p) == [p.name] + NamesIn(p.rest.(sep := ""))
    ensures pos <= |path| && rest <= |path|
    ensures Resolve(dir, path, pos, top) ==
            FirstName(dir, NamesIn(p), top, Resolve(dir, path, rest, FindEntry(dir, top, p.name, DIR, 0) + 1))
  {
    hide FindEntry, SkipSeparators, ComponentEnd, Reads, NamesIn;
    var start, end;
    start, end, rest := FirstParts(path, pos, p);
    OneName(p.rest.(sep := ""));
  }

  lemma OneName(p: Path)
    ensures NamesIn(p) == [] <==> p.End?
  {
  }

  lemma {:induction false} ResolvesRest(dir: seq<Entry>, path: string, pos: nat, p: Path, top: nat, i: nat)
    requires Reads(path, pos, p)
    ensures pos <= |path| && (Resolve(dir, path, pos, top) == Root <==> p.End?)
    ensures Resolve(dir, path, pos, top) == Found(i) <==> EndsIn(dir, NamesIn(p), top, i)
    decreases |NamesIn(p)|
  {
    hide FindEntry, EndsIn, FirstName, Reads;
    if p.End? {
      NoParts(path, pos, p);
      NoNames(dir, top, i);
    } else {
      hide Resolve;
      var rest := ResolvesFirst(dir, path, pos, p, top);
      var q, d := p.rest.(sep := ""), FindEntry(dir, top, p.name, DIR, 0);
      assert NamesIn(p)[1..] == NamesIn(q);
      OneName(q);
      ResolvesRest(dir, path, rest, q, d + 1, i);
      FirstNameEnds(dir, NamesIn(p), top, Resolve(dir, path, rest, d + 1), i);
    }
  }

  lemma NoNames(dir: seq<Entry>, top: nat, i: nat)
    ensures !EndsIn(dir, [], top, i)
  {
  }

  /**
   resolve_path, whatever the directory: a path without names is the root; it finds entry i if and only if its names,
   none of them too long, lead there from the root; and nothing otherwise.
   */
  lemma ResolveExact(dir: seq<Entry>, p: Path)
    requires Spelled(p)
    ensures var r, names := Resolve(dir, Text(p), 0, 0), NamesIn(p);
            && (r == Root <==> names == [])
            && (forall i: nat :: r == Found(i) <==> EndsIn(dir, names, 0, i))
            && (r == NotFound <==> names != [] && forall i: nat :: !EndsIn(dir, names, 0, i))
  {
    hide Resolve, EndsIn, Spelled;
    var path, r, names := Text(p), Resolve(dir, Text(p), 0, 0), NamesIn(p);
    assert Reads(path, 0, p) by { assert path[0..] == path; }
    hide Reads;
    ResolvesRest(dir, path, 0, p, 0, 0);
    OneName(p);
    forall i: nat ensures r == Found(i) <==> EndsIn(dir, names, 0, i) { ResolvesRest(dir, path, 0, p, 0, i); }
    if r.Found? { assert EndsIn(dir, names, 0, r.index); }
  }

  lemma AddSlash(c: char, q: Path) returns (p: Path)
    requires (c == '/' || c == '\\') && Spelled(q)
    ensures Spelled(p) && Text(p) == [c] + Text(q)
  {
    p := q.(sep := [c] + q.sep);
    if q.Step? { Regroup3([c], q.sep, q.name + Text(q.rest)); }
  }

  lemma Regroup3(a: string, b: string, c: string)
    ensures (a + b) + c == a + (b + c)
  {
  }

  lemma AddLetter(c: char, q: Path) returns (p: Path)
    requires c != '/' && c != '\\' && Spelled(q)
    ensures Spelled(p) && Text(p) == [c] + Text(q)
  {
    if q.Step? && q.sep == "" {
      p := q.(name := [c] + q.name);
      Regroup3([c], q.name, Text(q.rest));
      assert "" + (q.name + Text(q.rest)) == q.name + Text(q.rest);
      assert "" + (p.name + Text(q.rest)) == p.name + Text(q.rest);
    } else {
      p := Step("", [c], q);
      assert "" + ([c] + Text(q)) == [c] + Text(q);
    }
  }

  /** Every path can be taken apart. */
  lemma {:induction false} TakeApart(path: string) returns (p: Path)
    ensures Spelled(p) && Text(p) == path
    decreases |path|
  {
    hide Spelled;
    if path == "" {
      p := End("");
      assert Spelled(p) by { NoSlashes(); }
    } else {
      p := TakeApart(path[1..]);
      assert path == [path[0]] + path[1..];
      if path[0] == '/' || path[0] == '\\' { p := AddSlash(path[0], p); } else { p := AddLetter(path[0], p); }
    }
  }

  lemma NoSlashes()
    ensures Spelled(End(""))
  {
  }

  // ---- File contents -----------------------------------------------------------------------------------

  /** `n` consecutive block numbers. */
  function Run(start: nat, n: nat): (r: seq<nat>)
    ensures |r| == n && forall k :: 0 <= k < n ==> r[k] == start + k
  {
    seq(n, k requires 0 <= k < n => start + k)
  }

  /** The blocks of a list of extents, in file order. */
  function BlockList(xs: seq<Extent>): seq<nat>
  {
    if xs == [] then [] else Run(xs[0].start, xs[0].blocks) + BlockList(xs[1..])
  }

  predicate OnDisk(disk: seq<Block>, xs: seq<Extent>)
  {
    forall k :: 0 <= k < |xs| ==> xs[k].start + xs[k].blocks <= |disk|
  }

  /** The bytes of the listed blocks, one after the other. */
  function Bytes(disk: seq<Block>, blocks: seq<nat>): (r: seq<Byte>)
    requires forall k :: 0 <= k < |blocks| ==> blocks[k] < |disk|
    ensures |r| == |blocks| * BLOCK_SIZE
  {
    if blocks == [] then [] else disk[blocks[0]] + Bytes(disk, blocks[1..])
  }

  lemma {:induction false} BlockListOnDisk(disk: seq<Block>, xs: seq<Extent>)
    requires OnDisk(disk, xs)
    ensures |BlockList(xs)| == TotalBlocks(xs)
    ensures forall k :: 0 <= k < |BlockList(xs)| ==> BlockList(xs)[k] < |disk|
  {
    if xs != [] { BlockListOnDisk(disk, xs[1..]); }
  }

  function Prefix(s: seq<Byte>, n: nat): seq<Byte> { if n <= |s| then s[..n] else s }

  /** What the file is: the first `size` bytes of its blocks. There are that many exactly when the rounding of
      the size to blocks does not wrap round. */
  function Contents(disk: seq<Block>, e: Entry): (r: seq<Byte>)
    requires LegalExtents(e) && OnDisk(disk, ListedExtents(e))
    ensures |r| == e.size <==> e.size <= WORD - BLOCK_SIZE
  {
    BlockListOnDisk(disk, ListedExtents(e));
    Prefix(Bytes(disk, BlockList(ListedExtents(e))), e.size)
  }

  /** Byte k of a run of blocks is byte k % 512 of its block number k / 512. */
  lemma {:induction false} ByteAt(disk: seq<Block>, bs: seq<nat>, k: nat)
    requires AllOnDisk(disk, bs) && k < |bs| * BLOCK_SIZE
    ensures Bytes(disk, bs)[k] == disk[bs[k / BLOCK_SIZE]][k % BLOCK_SIZE]
    decreases |bs|
  {
    if k >= BLOCK_SIZE {
      ByteAt(disk, bs[1..], k - BLOCK_SIZE);
      assert (k - BLOCK_SIZE) / BLOCK_SIZE == k / BLOCK_SIZE - 1;
    }
  }

  /** The block that holds the bytes from q * 512 on, by the fields of the entry. */
  function BlockNumber(e: Entry, q: nat): nat
  {
    var first := e.meta % 0x100_0000;
    if e.meta == 0 || q < first then e.start + q
    else if q < first + e.extra0.blocks then e.extra0.start + (q - first)
    else e.extra1.start + (q - first - e.extra0.blocks)
  }

  lemma {:induction false} BlockAt(xs: seq<Extent>, q: nat)
    requires xs != [] && q < |BlockList(xs)|
    ensures if q < xs[0].blocks then BlockList(xs)[q] == xs[0].start + q
            else q - xs[0].blocks < |BlockList(xs[1..])| && BlockList(xs)[q] == BlockList(xs[1..])[q - xs[0].blocks]
  {
  }

  lemma BlockNumberExact(e: Entry, q: nat)
    requires LegalExtents(e) && q < |BlockList(ListedExtents(e))|
    ensures BlockList(ListedExtents(e))[q] == BlockNumber(e, q)
  {
    hide BlockList;
    var xs := ListedExtents(e);
    BlockAt(xs, q);
    if q >= xs[0].blocks {
      var r := q - xs[0].blocks;
      if |xs| == 1 {
        NoBlocks(xs[1..]);
      } else {
        BlockAt(xs[1..], r);
        if r >= xs[1].blocks {
          assert xs[1..][1..] == xs[2..];
          if |xs| == 2 { NoBlocks(xs[2..]); } else {
            BlockAt(xs[2..], r - xs[1].blocks);
            NoBlocks(xs[2..][1..]);
          }
        }
      }
    }
  }

  lemma NoBlocks(xs: seq<Extent>)
    ensures xs == [] ==> BlockList(xs) == []
  {
  }

  /** Every byte of a file, by the fields of its entry: extents follow each other in the order they are listed in. */
  lemma ContentsByte(disk: seq<Block>, e: Entry, k: nat)
    requires LegalExtents(e) && OnDisk(disk, ListedExtents(e)) && k < |Contents(disk, e)|
    ensures BlockNumber(e, k / 512) < |disk| && Contents(disk, e)[k] == disk[BlockNumber(e, k / 512)][k % 512]
  {
    hide BlockList, BlockNumber, ListedExtents;
    var bs := BlockList(ListedExtents(e));
    BlockListOnDisk(disk, ListedExtents(e));
    ByteAt(disk, bs, k);
    BlockNumberExact(e, k / 512);
  }

  /** Which entries list their blocks correctly, by their fields. */
  lemma LegalExtentsIff(e: Entry)
    ensures var count, first, need := e.meta / 0x100_0000, e.meta % 0x100_0000, AllocatedBlocks(e.size);
            LegalExtents(e) <==>
            || e.meta == 0
            || (count == 1 && first == need)
            || (count == 2 && first > 0 && e.extra0.blocks > 0 && first + e.extra0.blocks == need)
            || (count == 3 && first > 0 && e.extra0.blocks > 0 && e.extra1.blocks > 0
                && first + e.extra0.blocks + e.extra1.blocks == need)
  {
    var xs := ListedExtents(e);
    if xs != [] {
      assert TotalBlocks(xs) == xs[0].blocks + TotalBlocks(xs[1..]);
      if |xs| > 1 {
        assert TotalBlocks(xs[1..]) == xs[1].blocks + TotalBlocks(xs[1..][1..]);
        assert xs[1..][1..] == xs[2..];
        if |xs| > 2 { assert TotalBlocks(xs[2..]) == xs[2].blocks + TotalBlocks(xs[2..][1..]); }
      }
    }
  }

  /** A file of 2^32 - 1 bytes by its entry: its one listed block is all that can be read. */
  lemma ContentsCutShort(disk: seq<Block>)
    requires |disk| > 0
    ensures var e := Entry(FILE, "big", 0, 0xFFFF_FFFF, 0, 0, Extent(0, 0), Extent(0, 0));
            LegalExtents(e) && OnDisk(disk, ListedExtents(e)) && |Contents(disk, e)| == BLOCK_SIZE < e.size
  {
    var e := Entry(FILE, "big", 0, 0xFFFF_FFFF, 0, 0, Extent(0, 0), Extent(0, 0));
    var xs := ListedExtents(e);
    assert xs == [Extent(0, 1)] && xs[1..] == [];
    assert TotalBlocks(xs) == 1;
    BlockListOnDisk(disk, xs);
  }

  lemma {:induction false} BytesAppend(disk: seq<Block>, bs: seq<nat>, cs: seq<nat>)
    requires forall k :: 0 <= k < |bs| ==> bs[k] < |disk|
    requires forall k :: 0 <= k < |cs| ==> cs[k] < |disk|
    ensures Bytes(disk, bs + cs) == Bytes(disk, bs) + Bytes(disk, cs)
  {
    if bs == [] {
      assert bs + cs == cs;
    } else {
      BytesAppend(disk, bs[1..], cs);
      assert (bs + cs)[1..] == bs[1..] + cs;
    }
  }

  lemma Regroup(a: seq<nat>, b: seq<nat>, c: seq<nat>)
    ensures a + (b + c) == a + b + c
  {
  }

  lemma {:induction false} BlockListAppend(xs: seq<Extent>, ys: seq<Extent>)
    ensures BlockList(xs + ys) == BlockList(xs) + BlockList(ys)
  {
    hide Run;
    if xs == [] {
      assert xs + ys == ys;
    } else {
      BlockListAppend(xs[1..], ys);
      assert (xs + ys)[1..] == xs[1..] + ys;
      var first, rest := Run(xs[0].start, xs[0].blocks), BlockList(xs[1..]);
      Regroup(first, rest, BlockList(ys));
    }
  }

  /** One more block: the copy grows by what is still missing of it. */
  lemma BytesStep(disk: seq<Block>, done: seq<nat>, b: nat)
    requires b < |disk| && forall k :: 0 <= k < |done| ==> done[k] < |disk|
    ensures Bytes(disk, done + [b]) == Bytes(disk, done) + disk[b]
  {
    BytesAppend(disk, done, [b]);
    assert Bytes(disk, [b]) == disk[b] + Bytes(disk, [b][1..]);
  }

  ghost predicate AllOnDisk(disk: seq<Block>, done: seq<nat>)
  {
    forall k :: 0 <= k < |done| ==> done[k] < |disk|
  }

  /** The copy made after the blocks in `done`, and how the next block extends it. */
  lemma CopyStep(disk: seq<Block>, done: seq<nat>, b: nat, size: nat, data: seq<Byte>, chunk: nat)
    requires b < |disk| && forall k :: 0 <= k < |done| ==> done[k] < |disk|
    requires data == Prefix(Bytes(disk, done), size)
      && chunk == (if size - |data| < BLOCK_SIZE then size - |data| else BLOCK_SIZE)
    ensures AllOnDisk(disk, done + [b]) && data + disk[b][..chunk] == Prefix(Bytes(disk, done + [b]), size)
  {
    BytesStep(disk, done, b);
  }

  lemma RunStep(done: seq<nat>, start: nat, b: nat)
    ensures done + Run(start, b) + [start + b] == done + Run(start, b + 1)
    ensures done + Run(start, 0) == done
  {
    assert Run(start, b + 1) == Run(start, b) + [start + b];
  }

  lemma ExtentDone(xs: seq<Extent>, i: nat, before: seq<nat>)
    requires i < |xs| && before == BlockList(xs[..i])
    ensures BlockList(xs[..i + 1]) == before + Run(xs[i].start, xs[i].blocks)
  {
    BlockListAppend(xs[..i], [xs[i]]);
    assert xs[..i + 1] == xs[..i] + [xs[i]];
    assert BlockList([xs[i]]) == Run(xs[i].start, xs[i].blocks) + BlockList([xs[i]][1..]);
  }

  /** The inner loop of read_file_entry: the blocks of one extent. */
  method CopyExtent(x: Extent, size: nat, disk: seq<Block>, ghost done: seq<nat>, data: seq<Byte>)
    returns (ok: bool, data': seq<Byte>)
    requires |disk| < WORD && AllOnDisk(disk, done) && data == Prefix(Bytes(disk, done), size) && x.blocks > 0
    ensures ok <==> x.start + x.blocks <= |disk|
    ensures ok ==>
      AllOnDisk(disk, done + Run(x.start, x.blocks))
      && data' == Prefix(Bytes(disk, done + Run(x.start, x.blocks)), size)
  {
    data' := data;
    ghost var now := done;
    var b := 0;
    RunStep(done, x.start, 0);
    while b < x.blocks
      invariant 0 <= b <= x.blocks && now == done + Run(x.start, b) && (b > 0 ==> x.start + b <= |disk|)
      invariant AllOnDisk(disk, now) && data' == Prefix(Bytes(disk, now), size)
    {
      var remaining := size - |data'|;
      var chunk := if remaining < BLOCK_SIZE then remaining else BLOCK_SIZE;
      var lba := (x.start + b) % WORD;
      if lba >= |disk| { return false, data'; }
      CopyStep(disk, now, lba, size, data', chunk);
      data' := data' + disk[lba][..chunk];
      RunStep(done, x.start, b);
      now := now + [lba];
      b := b + 1;
    }
    return true, data';
  }

  /**
   read_file_entry: `data` is the file's contents and `size` the length it reports, which is that of `data` exactly up
   to the size whose block count does not wrap; it fails for what is no file, for illegal extents and for blocks beyond
   the end of the image.
   */
  method ReadFile(e: Entry, disk: seq<Block>) returns (ok: bool, data: seq<Byte>, size: nat)
    requires |disk| < WORD
    ensures ok <==> e.used == FILE && LegalExtents(e) && OnDisk(disk, ListedExtents(e))
    ensures ok ==> data == Contents(disk, e) && size == e.size && (|data| == size <==> e.size <= WORD - BLOCK_SIZE)
  {
    data, size := [], 0;
    if e.used != FILE { return false, data, 0; }
    var legal, xs := EntryExtents(e);
    if !legal { return false, data, 0; }
    var i := 0;
    while i < |xs|
      invariant 0 <= i <= |xs| && OnDisk(disk, xs[..i])
      invariant AllOnDisk(disk, BlockList(xs[..i])) && data == Prefix(Bytes(disk, BlockList(xs[..i])), e.size)
    {
      ExtentDone(xs, i, BlockList(xs[..i]));
      var copied, more := CopyExtent(xs[i], e.size, disk, BlockList(xs[..i]), data);
      if !copied { return false, data, 0; }
      data := more;
      assert xs[..i + 1] == xs[..i] + [xs[i]];
      i := i + 1;
    }
    assert xs[..i] == xs;
    BlockListOnDisk(disk, xs);
    ok, size := true, e.size;
  }
}
