/**
 Process identity: the grouping key, the start-time-validated cache and the icon cache.
 What /proc and the .desktop files say enters as values: the record a pid currently has, if any,
 and the Icon= key the application directories yield for a desktop id (empty when none does).
 */
module ProcessResolver {
  import opened Basics
  import opened Sampling
  import opened UnitName

  datatype RawProc = RawProc(startTime: nat, comm: string, exeLink: string, cgroupLeaf: string)

  datatype ProcInfo = ProcInfo(
    appKey: string, desktopId: string, exePath: string, comm: string, name: string, icon: string)

  datatype CacheEntry = CacheEntry(startTime: nat, info: ProcInfo)

  /** What the files and the character tables say while one resolve() runs. */
  datatype Env = Env(desktop: string -> string, chars: Chars)

  datatype State = State(cache: map<Tgid, CacheEntry>, icons: map<string, string>)

  const INTERPRETERS := [
    "node", "nodejs", "deno", "bun", "java", "ruby", "perl", "php", "sh", "bash", "zsh", "dash",
    "fish", "mono", "dotnet", "gjs", "qml", "qmlscene", "wine", "wine64", "busybox"]

  predicate IsGenericInterpreter(base: string) {
    base in INTERPRETERS || StartsWith(base, "python") || StartsWith(base, "electron")
  }

  function ExePath(link: string): string {
    if EndsWith(link, " (deleted)") then link[..|link| - 10] else link
  }

  /** QFileInfo::fileName. */
  function FileName(path: string): string {
    path[LastIndexOf(path, '/') + 1..]
  }

  function AppKey(exePath: string, identity: Identity, comm: string): string {
    if exePath != "" && !IsGenericInterpreter(FileName(exePath)) then "exe:" + exePath
    else if identity.desktopId != "" then "app:" + identity.desktopId
    else if identity.unit != "" then "unit:" + identity.unit
    else if exePath != "" then "exe:" + exePath
    else "comm:" + comm
  }

  function IconOf(icons: map<string, string>, env: Env, id: string): string {
    if id == "" then "" else if id in icons then icons[id] else env.desktop(id)
  }

  /** What a process's record makes of it when the cache does not help. */
  function Identify(icons: map<string, string>, env: Env, raw: RawProc, bpfComm: string): ProcInfo {
    var comm := if raw.comm == "" then bpfComm else raw.comm;
    var exePath := ExePath(raw.exeLink);
    var identity := ParseLeaf(env.chars, raw.cgroupLeaf);
    var base := if exePath == "" then "" else FileName(exePath);
    ProcInfo(AppKey(exePath, identity, comm), identity.desktopId, exePath, comm,
             if base == "" then comm else base, IconOf(icons, env, identity.desktopId))
  }

  predicate Hit(s: State, pid: Tgid, raw: RawProc) {
    pid in s.cache && s.cache[pid].startTime == raw.startTime
  }

  /** The answer of resolve(). */
  function Answer(s: State, env: Env, pid: Tgid, bpfComm: string, raw: Option<RawProc>): Option<ProcInfo> {
    if raw.None? then None
    else if Hit(s, pid, raw.value) then Some(s.cache[pid].info)
    else Some(Identify(s.icons, env, raw.value, bpfComm))
  }

  /** The caches after resolve(). */
  function After(s: State, env: Env, pid: Tgid, bpfComm: string, raw: Option<RawProc>): State {
    if raw.None? || Hit(s, pid, raw.value) then s
    else
      var info := Identify(s.icons, env, raw.value, bpfComm);
      State(s.cache[pid := CacheEntry(raw.value.startTime, info)],
            if info.desktopId == "" then s.icons else s.icons[info.desktopId := info.icon])
  }

  function Pruned(s: State, live: set<Tgid>): State {
    s.(cache := map p | p in s.cache && p in live :: s.cache[p])
  }

  class Resolver {
    var cache: map<Tgid, CacheEntry>
    var icons: map<string, string>

    function Contents(): State
      reads this
    {
      State(cache, icons)
    }

    constructor ()
      ensures Contents() == State(map[], map[])
    {
      cache, icons := map[], map[];
    }

    method IconFor(desktopId: string, env: Env) returns (icon: string)
      modifies this`icons
      ensures icon == IconOf(old(icons), env, desktopId)
      ensures icons == if desktopId == "" then old(icons) else old(icons)[desktopId := icon]
    {
      if desktopId == "" {
        return "";
      }
      if desktopId in icons {
        assert icons[desktopId := icons[desktopId]] == icons;
        return icons[desktopId];
      }
      icon := env.desktop(desktopId);
      icons := icons[desktopId := icon];
    }

    method Resolve(pid: Tgid, bpfComm: string, raw: Option<RawProc>, env: Env)
      returns (info: Option<ProcInfo>)
      modifies this
      ensures info == Answer(old(Contents()), env, pid, bpfComm, raw)
      ensures Contents() == After(old(Contents()), env, pid, bpfComm, raw)
    {
      if raw.None? {
        return None;
      }
      if pid in cache && cache[pid].startTime == raw.value.startTime {
        return Some(cache[pid].info);
      }
      var comm := raw.value.comm;
      if comm == "" {
        comm := bpfComm;
      }
      var exePath := ExePath(raw.value.exeLink);
      var desktopId, unit := ParseCgroupIdentity(env.chars, raw.value.cgroupLeaf);
      var exeBase := if exePath == "" then "" else FileName(exePath);
      var key;
      if exePath != "" && !IsGenericInterpreter(exeBase) {
        key := "exe:" + exePath;
      } else if desktopId != "" {
        key := "app:" + desktopId;
      } else if unit != "" {
        key := "unit:" + unit;
      } else if exePath != "" {
        key := "exe:" + exePath;
      } else {
        key := "comm:" + comm;
      }
      var icon := IconFor(desktopId, env);
      var built := ProcInfo(key, desktopId, exePath, comm, if exeBase == "" then comm else exeBase, icon);
      cache := cache[pid := CacheEntry(raw.value.startTime, built)];
      info := Some(built);
    }

    method Prune(live: set<Tgid>)
      modifies this`cache
      ensures Contents() == Pruned(old(Contents()), live)
    {
      var todo := cache.Keys;
      while todo != {}
        invariant todo <= old(cache).Keys
        invariant cache == map p | p in old(cache) && (p in todo || p in live) :: old(cache)[p]
        decreases |todo|
      {
        var p :| p in todo;
        if p !in live {
          cache := cache - {p};
        }
        todo := todo - {p};
      }
    }
  }

  // ---------------------------------------------------------------------------------------------
  // What a key says about its process
  // ---------------------------------------------------------------------------------------------

  /** Keys never run together, and a process that only has a comm key carries nothing that a dead
      process of the same comm would not. */
  predicate WellFormed(info: ProcInfo) {
    && info.appKey != ""
    && (StartsWith(info.appKey, "comm:") ==>
          info.appKey == "comm:" + info.comm && info.exePath == ""
          && info.desktopId == "" && info.name == info.comm && info.icon == "")
  }

  lemma {:induction false} PrefixesDiffer(x: string)
    ensures !StartsWith("exe:" + x, "comm:") && !StartsWith("app:" + x, "comm:") && !StartsWith("unit:" + x, "comm:")
  {
    assert ("exe:" + x)[0] == 'e' && ("app:" + x)[0] == 'a' && ("unit:" + x)[0] == 'u';
    assert "comm:"[0] == 'c';
  }

  lemma {:induction false} IdentityIsWellFormed(icons: map<string, string>, env: Env, raw: RawProc, bpfComm: string)
    ensures WellFormed(Identify(icons, env, raw, bpfComm))
  {
    var identity := ParseLeaf(env.chars, raw.cgroupLeaf);
    PrefixesDiffer(ExePath(raw.exeLink));
    PrefixesDiffer(identity.desktopId);
    PrefixesDiffer(identity.unit);
  }

  /** The executable alone decides, or else nothing but the cgroup, or else the name. */
  predicate Telling(exePath: string) {
    exePath != "" && !IsGenericInterpreter(FileName(exePath))
  }

  /** What a key is made of. */
  datatype Basis = Exe(path: string) | App(desktopId: string) | Unit(unit: string) | Comm(comm: string)

  function Prefix(b: Basis): string {
    match b
    case Exe(_) => "exe:"
    case App(_) => "app:"
    case Unit(_) => "unit:"
    case Comm(_) => "comm:"
  }

  function Suffix(b: Basis): string {
    match b
    case Exe(x) => x
    case App(x) => x
    case Unit(x) => x
    case Comm(x) => x
  }

  function Text(b: Basis): string {
    Prefix(b) + Suffix(b)
  }

  /** Keys of two kinds never meet. */
  lemma {:induction false} TextDecides(a: Basis, b: Basis)
    ensures Text(a) == Text(b) <==> a == b
  {
    assert Text(a)[0] == Prefix(a)[0] && Text(b)[0] == Prefix(b)[0];
    assert Text(a)[|Prefix(a)|..] == Suffix(a) && Text(b)[|Prefix(b)|..] == Suffix(b);
  }

  function BasisOf(e: string, i: Identity, c: string): (b: Basis)
    ensures AppKey(e, i, c) == Text(b)
  {
    if Telling(e) then Exe(e)
    else if i.desktopId != "" then App(i.desktopId)
    else if i.unit != "" then Unit(i.unit)
    else if e != "" then Exe(e)
    else Comm(c)
  }

  /** Which processes share a row. One executable is one application whatever cgroups its processes
      are in; processes run by an interpreter, or whose executable cannot be read, are told apart by
      desktop id, then by unit, then by path, then by name. */
  lemma {:induction false} GroupedExactly(e: string, i: Identity, c: string, e': string, i': Identity, c': string)
    ensures Telling(e) ==> (AppKey(e, i, c) == AppKey(e', i', c') <==> e' == e)
    ensures !Telling(e) && i.desktopId != "" ==>
              (AppKey(e, i, c) == AppKey(e', i', c') <==> !Telling(e') && i'.desktopId == i.desktopId)
    ensures !Telling(e) && i.desktopId == "" && i.unit != "" ==>
              (AppKey(e, i, c) == AppKey(e', i', c') <==> !Telling(e') && i'.desktopId == "" && i'.unit == i.unit)
    ensures !Telling(e) && i == Anonymous && e != "" ==>
              (AppKey(e, i, c) == AppKey(e', i', c') <==> e' == e && i' == Anonymous)
    ensures e == "" && i == Anonymous ==>
              (AppKey(e, i, c) == AppKey(e', i', c') <==> e' == "" && i' == Anonymous && c' == c)
  {
    TextDecides(BasisOf(e, i, c), BasisOf(e', i', c'));
  }

  // ---------------------------------------------------------------------------------------------
  // What a fresh answer says of its process
  // ---------------------------------------------------------------------------------------------

  lemma {:induction false} FileNameAfterSlash(dir: string, base: string)
    requires '/' !in base
    ensures FileName(dir + "/" + base) == base
  {
    var path := dir + "/" + base;
    assert path[|dir|] == '/' && path[|dir| + 1..] == base;
    assert forall j :: |dir| < j < |path| ==> path[j] == base[j - |dir| - 1];
  }

  /** The name an application is shown under is that of its executable; the comm only stands in when there
      is no executable to be read. The path is the link's, less the mark of a replaced binary. */
  lemma {:induction false} NamedByExecutable(
    icons: map<string, string>, env: Env, raw: RawProc, bpfComm: string, dir: string, base: string)
    requires '/' !in base && !EndsWith(base, " (deleted)")
    requires raw.exeLink == dir + "/" + base || raw.exeLink == dir + "/" + base + " (deleted)"
    ensures var info := Identify(icons, env, raw, bpfComm);
            info.exePath == dir + "/" + base && info.name == if base != "" then base else info.comm
  {
    FileNameAfterSlash(dir, base);
    MarkIsCut(dir + "/" + base);
    NoMarkOnPath(dir, base);
  }

  lemma {:induction false} MarkIsCut(path: string)
    ensures EndsWith(path + " (deleted)", " (deleted)")
    ensures ExePath(path + " (deleted)") == path
  {
    var link := path + " (deleted)";
    assert link[|link| - 10..] == " (deleted)" && link[..|link| - 10] == path;
  }

  lemma {:induction false} NoMarkOnPath(dir: string, base: string)
    requires '/' !in base && !EndsWith(base, " (deleted)")
    ensures !EndsWith(dir + "/" + base, " (deleted)")
  {
    var path := dir + "/" + base;
    if |base| >= 10 {
      assert path[|path| - 10..] == base[|base| - 10..];
    } else if |path| >= 10 {
      var i := 9 - |base|;
      assert path[|path| - 10..][i] == '/' && " (deleted)"[i] != '/';
    }
  }

  /** The comm is that of /proc, and the kernel's only when there is none; it is the name of a process
      whose executable cannot be read. */
  lemma {:induction false} NamedByComm(icons: map<string, string>, env: Env, raw: RawProc, bpfComm: string)
    ensures var info := Identify(icons, env, raw, bpfComm);
            && (raw.comm != "" ==> info.comm == raw.comm)
            && (raw.comm == "" ==> info.comm == bpfComm)
            && (raw.exeLink == "" ==> info.exePath == "" && info.name == info.comm)
    ensures raw.exeLink == "" ==>
              var info, i := Identify(icons, env, raw, bpfComm), ParseLeaf(env.chars, raw.cgroupLeaf);
              && (i.desktopId != "" ==> info.appKey == "app:" + i.desktopId)
              && (i.desktopId == "" && i.unit != "" ==> info.appKey == "unit:" + i.unit)
              && (i.desktopId == "" && i.unit == "" ==> info.appKey == "comm:" + info.comm)
  {
  }

  /** The desktop id is the cgroup's, and the icon is the one on record for it, or else what the
      application directories have now; no id, no icon. */
  lemma {:induction false} ShownByDesktopId(icons: map<string, string>, env: Env, raw: RawProc, bpfComm: string)
    ensures var info := Identify(icons, env, raw, bpfComm);
            && info.desktopId == ParseLeaf(env.chars, raw.cgroupLeaf).desktopId
            && (info.desktopId == "" ==> info.icon == "")
            && (info.desktopId != "" && info.desktopId in icons ==> info.icon == icons[info.desktopId])
            && (info.desktopId != "" && info.desktopId !in icons ==> info.icon == env.desktop(info.desktopId))
  {
  }

  /** Twenty-one programs run others, and so does whatever is called python or electron something. */
  lemma {:induction false} InterpretersExactly(base: string)
    ensures IsGenericInterpreter(base)
       <==> || base == "node" || base == "nodejs" || base == "deno" || base == "bun" || base == "java"
            || base == "ruby" || base == "perl" || base == "php" || base == "sh" || base == "bash"
            || base == "zsh" || base == "dash" || base == "fish" || base == "mono" || base == "dotnet"
            || base == "gjs" || base == "qml" || base == "qmlscene" || base == "wine" || base == "wine64"
            || base == "busybox"
            || (exists version: string :: base == "python" + version)
            || (exists version: string :: base == "electron" + version)
  {
    StartsExactly(base, "python");
    StartsExactly(base, "electron");
  }

  /** The key of a program in terms of its executable and its cgroup. */
  lemma {:induction false} KeyedByExecutable(
    icons: map<string, string>, env: Env, raw: RawProc, bpfComm: string, dir: string, base: string)
    requires '/' !in base && !EndsWith(base, " (deleted)")
    requires raw.exeLink == dir + "/" + base || raw.exeLink == dir + "/" + base + " (deleted)"
    ensures var key, i := Identify(icons, env, raw, bpfComm).appKey, ParseLeaf(env.chars, raw.cgroupLeaf);
            && (!IsGenericInterpreter(base) ==> key == "exe:" + dir + "/" + base)
            && (IsGenericInterpreter(base) && i.desktopId != "" ==> key == "app:" + i.desktopId)
            && (IsGenericInterpreter(base) && i.desktopId == "" && i.unit != "" ==> key == "unit:" + i.unit)
            && (IsGenericInterpreter(base) && i.desktopId == "" && i.unit == "" ==>
                  key == "exe:" + dir + "/" + base)
  {
    hide ParseLeaf, ExePath, FileName, IsGenericInterpreter, IconOf;
    NamedByExecutable(icons, env, raw, bpfComm, dir, base);
    FileNameAfterSlash(dir, base);
    assert "exe:" + (dir + "/" + base) == "exe:" + dir + "/" + base;
  }

  /** While the start time stays the same the answer stays the same, whatever the files say by then; under
      another start time, which is another process, everything is read afresh. */
  lemma {:induction false} AnswerIsForLife(s: State, env: Env, pid: Tgid, bpfComm: string, raw: RawProc,
                                           env': Env, bpfComm': string, raw': RawProc)
    ensures var t := After(s, env, pid, bpfComm, Some(raw));
            var first, second := Answer(s, env, pid, bpfComm, Some(raw)), Answer(t, env', pid, bpfComm', Some(raw'));
            && first.Some? && second.Some?
            && (raw'.startTime == raw.startTime ==> second == first)
            && (raw'.startTime != raw.startTime ==> second == Some(Identify(t.icons, env', raw', bpfComm')))
    ensures pid !in s.cache ==>
              Answer(s, env, pid, bpfComm, Some(raw)) == Some(Identify(s.icons, env, raw, bpfComm))
    ensures Answer(s, env, pid, bpfComm, None) == None && After(s, env, pid, bpfComm, None) == s
  {
  }

  /** Invariant of the two caches: entries are well formed and their icons are the ones on record. */
  ghost predicate Consistent(s: State) {
    forall p :: p in s.cache ==> Recorded(s, s.cache[p].info)
  }

  ghost predicate Recorded(s: State, info: ProcInfo) {
    && WellFormed(info)
    && (info.desktopId == "" ==> info.icon == "")
    && (info.desktopId != "" ==> info.desktopId in s.icons && s.icons[info.desktopId] == info.icon)
  }

  lemma {:induction false} ResolveKeepsConsistent(s: State, env: Env, pid: Tgid, bpfComm: string, raw: Option<RawProc>)
    requires Consistent(s)
    ensures Consistent(After(s, env, pid, bpfComm, raw))
    ensures Answer(s, env, pid, bpfComm, raw).Some? ==>
              Recorded(After(s, env, pid, bpfComm, raw), Answer(s, env, pid, bpfComm, raw).value)
    ensures forall id :: id in s.icons ==>
              id in After(s, env, pid, bpfComm, raw).icons && After(s, env, pid, bpfComm, raw).icons[id] == s.icons[id]
  {
    if raw.Some? {
      IdentityIsWellFormed(s.icons, env, raw.value, bpfComm);
    }
  }

  /** Resolving one process does not change the answer for another: the order within a tick does
      not matter. */
  lemma {:induction false} AnswersAreIndependent(s: State, env: Env, pid: Tgid, comm: string, raw: Option<RawProc>,
                              pid': Tgid, comm': string, raw': Option<RawProc>)
    requires pid != pid'
    ensures Answer(After(s, env, pid, comm, raw), env, pid', comm', raw') == Answer(s, env, pid', comm', raw')
  {
    hide ParseLeaf, AppKey, ExePath, FileName, LastIndexOf;
  }

  // ---------------------------------------------------------------------------------------------
  // Runs: processes come and go, pids are reused, files change
  // ---------------------------------------------------------------------------------------------

  /** serial tells occupants of one pid apart, a later one having the larger; the program cannot see it. */
  datatype Occupant = Occupant(serial: nat, raw: RawProc)

  /** A resolve() under way, past its reading of the start time: what it has read so far, how many of the
      three other files that is, and which occupants they were of. */
  datatype Call = Call(pid: Tgid, raw: RawProc, count: nat, holder: nat, sources: set<nat>)

  /** One answered resolve(): who held the pid when the start time was read, whose files the answer was
      made from, and whether it came from the cache. */
  datatype Reply = Reply(pid: Tgid, holder: nat, sources: set<nat>, cached: bool, info: ProcInfo)

  /** Where a cache entry came from. */
  datatype Origin = Origin(holder: nat, sources: set<nat>)

  datatype World = World(
    occupants: map<Tgid, Occupant>, used: set<(Tgid, nat)>, nextSerial: nat,
    state: State, origins: map<Tgid, Origin>, call: Option<Call>, replies: seq<Reply>)

  datatype Event =
    | Spawn(pid: Tgid, raw: RawProc)
    | Rewrite(pid: Tgid, raw: RawProc)      // exec, rename or a cgroup move of the same process
    | Exit(pid: Tgid)
    | Begin(pid: Tgid)                      // resolve() reads the start time and looks in the cache
    | ReadNext                              // it reads comm, then exe, then cgroup
    | Conclude(bpfComm: string, env: Env)     // it answers and fills the cache
    | Prune(live: set<Tgid>)

  const Boot := World(map[], {}, 0, State(map[], map[]), map[], None, [])

  const Blank := RawProc(0, "", "", "")

  /** What is read of the call's pid next: nothing if nobody holds it any more. */
  function Look(w: World, c: Call): Call {
    var raw := if c.pid in w.occupants then w.occupants[c.pid].raw else Blank;
    var sources := c.sources + if c.pid in w.occupants then {w.occupants[c.pid].serial} else {};
    var read :=
      if c.count == 0 then c.raw.(comm := raw.comm)
      else if c.count == 1 then c.raw.(exeLink := raw.exeLink)
      else c.raw.(cgroupLeaf := raw.cgroupLeaf);
    c.(raw := read, count := c.count + 1, sources := sources)
  }

  /** A pid is handed out when free, with a start time no earlier occupant of it had. The resolver runs
      on one thread; everything else may happen between its steps. */
  function Step(w: World, e: Event): World {
    match e
    case Spawn(pid, raw) =>
      if pid in w.occupants || (pid, raw.startTime) in w.used then w
      else w.(occupants := w.occupants[pid := Occupant(w.nextSerial, raw)],
              used := w.used + {(pid, raw.startTime)}, nextSerial := w.nextSerial + 1)
    case Rewrite(pid, raw) =>
      if pid !in w.occupants || raw.startTime != w.occupants[pid].raw.startTime then w
      else w.(occupants := w.occupants[pid := w.occupants[pid].(raw := raw)])
    case Exit(pid) => w.(occupants := w.occupants - {pid})
    case Begin(pid) =>
      if w.call.Some? || pid !in w.occupants then w
      else
        var o := w.occupants[pid];
        if Hit(w.state, pid, o.raw) && pid in w.origins then
          w.(replies := w.replies + [Reply(pid, o.serial, w.origins[pid].sources, true, w.state.cache[pid].info)])
        else w.(call := Some(Call(pid, Blank.(startTime := o.raw.startTime), 0, o.serial, {})))
    case ReadNext =>
      if w.call.None? || w.call.value.count >= 3 then w else w.(call := Some(Look(w, w.call.value)))
    case Conclude(comm, env) =>
      if w.call.None? || w.call.value.count < 3 then w
      else
        var c := w.call.value;
        w.(state := After(w.state, env, c.pid, comm, Some(c.raw)),
           origins := w.origins[c.pid := Origin(c.holder, c.sources)],
           call := None,
           replies := w.replies + [Reply(c.pid, c.holder, c.sources, false, Identify(w.state.icons, env, c.raw, comm))])
    case Prune(live) => if w.call.Some? then w else w.(state := Pruned(w.state, live))
  }

  function Run(events: seq<Event>): World {
    if events == [] then Boot else Step(Run(events[..|events| - 1]), events[|events| - 1])
  }

  // ---------------------------------------------------------------------------------------------
  // Whose files an answer was made from
  // ---------------------------------------------------------------------------------------------

  ghost predicate NotEarlier(sources: set<nat>, holder: nat) {
    forall q :: q in sources ==> q >= holder
  }

  /** What is known of files read for the occupant called holder, whose start time is start: none is of an
      earlier occupant, and while that occupant is there they are all its own. */
  ghost predicate Traced(w: World, pid: Tgid, start: nat, holder: nat, sources: set<nat>) {
    && holder < w.nextSerial && (pid, start) in w.used && NotEarlier(sources, holder)
    && (pid in w.occupants && w.occupants[pid].serial == holder ==> sources <= {holder})
    && (pid in w.occupants && w.occupants[pid].raw.startTime == start ==> w.occupants[pid].serial == holder)
    && (pid in w.occupants ==> w.occupants[pid].serial >= holder)
  }

  ghost predicate Occupied(w: World) {
    forall p :: p in w.occupants ==>
      w.occupants[p].serial < w.nextSerial && (p, w.occupants[p].raw.startTime) in w.used
  }

  ghost predicate CacheTraced(w: World) {
    forall p :: p in w.state.cache ==>
      p in w.origins && Traced(w, p, w.state.cache[p].startTime, w.origins[p].holder, w.origins[p].sources)
  }

  ghost predicate CallTraced(w: World) {
    w.call.Some? ==>
      var c := w.call.value;
      Traced(w, c.pid, c.raw.startTime, c.holder, c.sources) && !Cached(w.state, c)
  }

  /** The start time the call has read is that of a cache entry. */
  predicate Cached(s: State, c: Call) {
    c.pid in s.cache && s.cache[c.pid].startTime == c.raw.startTime
  }

  ghost predicate Sound(r: Reply) {
    NotEarlier(r.sources, r.holder) && (r.cached ==> r.sources <= {r.holder})
  }

  ghost predicate SourcesSound(w: World) {
    Occupied(w) && CacheTraced(w) && CallTraced(w) && forall r :: r in w.replies ==> Sound(r)
  }

  lemma {:induction false} SpawnTraced(w: World, e: Event, pid: Tgid, start: nat, holder: nat, sources: set<nat>)
    requires Occupied(w) && Traced(w, pid, start, holder, sources) && (e.Spawn? || e.Rewrite? || e.Exit?)
    ensures Traced(Step(w, e), pid, start, holder, sources)
  {
  }

  lemma {:induction false} WorldMoves(w: World, e: Event)
    requires SourcesSound(w) && (e.Spawn? || e.Rewrite? || e.Exit?)
    ensures SourcesSound(Step(w, e))
  {
    var w' := Step(w, e);
    forall p | p in w'.state.cache
      ensures p in w'.origins
      ensures Traced(w', p, w'.state.cache[p].startTime, w'.origins[p].holder, w'.origins[p].sources)
    {
      SpawnTraced(w, e, p, w.state.cache[p].startTime, w.origins[p].holder, w.origins[p].sources);
    }
    if w.call.Some? {
      var c := w.call.value;
      SpawnTraced(w, e, c.pid, c.raw.startTime, c.holder, c.sources);
    }
  }

  lemma {:induction false} BeginSound(w: World, pid: Tgid)
    requires SourcesSound(w)
    ensures SourcesSound(Step(w, Begin(pid)))
  {
  }

  lemma {:induction false} ReadSound(w: World)
    requires SourcesSound(w)
    ensures SourcesSound(Step(w, ReadNext))
  {
  }

  lemma {:induction false} ConcludeSound(w: World, comm: string, env: Env)
    requires SourcesSound(w)
    ensures SourcesSound(Step(w, Conclude(comm, env)))
  {
  }

  lemma {:induction false} SourcesSoundStep(w: World, e: Event)
    requires SourcesSound(w)
    ensures SourcesSound(Step(w, e))
  {
    match e {
      case Begin(pid) => BeginSound(w, pid);
      case ReadNext => ReadSound(w);
      case Conclude(comm, env) => ConcludeSound(w, comm, env);
      case Prune(_) =>
      case _ => WorldMoves(w, e);
    }
  }

  // ---------------------------------------------------------------------------------------------
  // Icons
  // ---------------------------------------------------------------------------------------------

  ghost predicate IconsSound(w: World) {
    && Consistent(w.state)
    && forall r :: r in w.replies ==> Recorded(w.state, r.info)
  }

  lemma {:induction false} IconsSoundStep(w: World, e: Event)
    requires IconsSound(w) && CallTraced(w)
    ensures IconsSound(Step(w, e))
  {
    if e.Conclude? && w.call.Some? {
      var c := w.call.value;
      ResolveKeepsConsistent(w.state, e.env, c.pid, e.bpfComm, Some(c.raw));
    }
  }

  lemma {:induction false} SoundRun(events: seq<Event>)
    ensures SourcesSound(Run(events)) && IconsSound(Run(events))
  {
    if events != [] {
      var front, e := events[..|events| - 1], events[|events| - 1];
      SoundRun(front);
      SourcesSoundStep(Run(front), e);
      IconsSoundStep(Run(front), e);
    }
  }

  /** Over any run, no answer was made from files of an occupant earlier than the one that held the pid
      when the call began, and one from the cache was made from files of that very occupant. */
  lemma {:induction false} NeverInheritsIdentity(events: seq<Event>, r: Reply)
    requires r in Run(events).replies
    ensures forall q :: q in r.sources ==> q >= r.holder
    ensures r.cached ==> r.sources <= {r.holder}
  {
    SoundRun(events);
  }

  /** For the daemon's life, answers with one desktop id carry one icon, even if the files change. */
  lemma {:induction false} OneIconPerDesktopId(events: seq<Event>, r: Reply, r': Reply)
    requires r in Run(events).replies && r' in Run(events).replies
    requires r.info.desktopId == r'.info.desktopId
    ensures r.info.icon == r'.info.icon
  {
    SoundRun(events);
  }
}
