/** A set of volumes (volume/set.go): naming the volumes a provider creates, and resolving mounts to volumes. */
module Volumes {
  import opened Outcomes
  import opened Text
  import Paths

  /** What a Volume object holds. */
  datatype Info = Info(name: string, hostPath: string, vmPath: string, containerPath: string)

  datatype Mount = Mount(source: string, destination: string, readOnly: bool, key: string)

  /** A mount of the OCI specification; its type is always "bind". */
  datatype BindMount = BindMount(source: string, destination: string, options: seq<string>)

  datatype State = State(volumes: map<string, Info>, mounts: map<string, seq<Mount>>, providers: set<string>)

  function NamedKey(name: string): string {
    "named_" + name
  }

  function AnonKey(index: nat): string {
    "anon_" + Decimal(index)
  }

  /** A volume without a name is named after the number of volumes already there. */
  function Name(volumes: map<string, Info>, v: Info): Info {
    if v.name == "" then v.(name := AnonKey(|volumes|)) else v
  }

  function Filled(volumes: map<string, Info>, created: seq<Info>): map<string, Info>
    decreases |created|
  {
    if created == [] then volumes
    else
      var m := Filled(volumes, created[..|created| - 1]);
      var v := Name(m, created[|created| - 1]);
      m[v.name := v]
  }

  function Recorded(volumes: map<string, Info>, created: seq<Info>): (mounts: seq<Mount>)
    ensures |mounts| == |created|
    decreases |created|
  {
    if created == [] then []
    else
      var init, last := created[..|created| - 1], created[|created| - 1];
      Recorded(volumes, init) + [Mount("", last.containerPath, false, Name(Filled(volumes, init), last).name)]
  }

  function AfterCopy(s: State, provider: string, created: seq<Info>): State {
    s.(volumes := Filled(s.volumes, created), mounts := s.mounts[provider := Recorded(s.volumes, created)])
  }

  // ----- mounts -----

  function Key(mp: Mount): string {
    if mp.key == "" then NamedKey(mp.source) else mp.key
  }

  /** filepath.Join of two elements. */
  function JoinPath(dir: string, name: string): string {
    if dir == "" && name == "" then ""
    else if dir == "" then Paths.Clean(name)
    else if name == "" then Paths.Clean(dir)
    else Paths.Clean(dir + "/" + name)
  }

  function Bind(v: Info, volumeDir: string, mp: Mount): BindMount {
    BindMount(
      if v.vmPath != "" then v.vmPath else JoinPath(volumeDir, v.name),
      mp.destination,
      if mp.readOnly then ["bind", "ro"] else ["bind"])
  }

  // ----- the object -----

  class Volume {
    var name: string
    const hostPath: string
    const vmPath: string
    const containerPath: string

    constructor (name: string, hostPath: string, vmPath: string, containerPath: string)
      ensures Value() == Info(name, hostPath, vmPath, containerPath)
    {
      this.name, this.hostPath, this.vmPath, this.containerPath := name, hostPath, vmPath, containerPath;
    }

    ghost function Value(): Info
      reads this
    {
      Info(name, hostPath, vmPath, containerPath)
    }
  }

  ghost function Values(vs: seq<Volume>): (r: seq<Info>)
    reads vs
    ensures |r| == |vs|
    ensures forall i :: 0 <= i < |vs| ==> r[i] == vs[i].Value()
  {
    seq(|vs|, i requires 0 <= i < |vs| reads vs => vs[i].Value())
  }

  ghost function Contents(m: map<string, Volume>): map<string, Info>
    reads m.Values
  {
    map k | k in m :: m[k].Value()
  }

  lemma SameSize(m: map<string, Volume>)
    ensures |Contents(m)| == |m|
  {
    assert Contents(m).Keys == m.Keys;
  }

  lemma ContentsUpdate(m: map<string, Volume>, k: string, v: Volume)
    ensures Contents(m[k := v]) == Contents(m)[k := v.Value()]
  {
  }

  class Set {
    var volumes: map<string, Volume>
    var mounts: map<string, seq<Mount>>
    var providers: set<string>
    var volumeDir: string

    ghost function View(): State
      reads this, volumes.Values
    {
      State(Contents(volumes), mounts, providers)
    }

    constructor ()
      ensures View() == State(map[], map[], {}) && volumeDir == ""
    {
      volumes, mounts, providers, volumeDir := map[], map[], {}, "";
    }

    method Add(v: Volume)
      modifies this
      ensures View() == AfterAdd(old(View()), v.Value())
    {
      ContentsUpdate(volumes, NamedKey(v.name), v);
      volumes := volumes[NamedKey(v.name) := v];
    }

    method AddFrom(provider: string) returns (ok: bool)
      modifies this
      ensures ok <==> provider !in old(providers)
      ensures View() == old(View()).(providers := old(providers) + {provider})
    {
      if provider in providers {
        return false;
      }
      providers := providers + {provider};
      return true;
    }

    /** The body of the loop over the created volumes: name the volume, in place, and store it. */
    method Store(v: Volume)
      requires v !in volumes.Values
      modifies `volumes, v
      ensures var n := Name(old(View()).volumes, old(v.Value()));
              v.Value() == n && View() == old(View()).(volumes := old(View()).volumes[n.name := n])
      ensures volumes.Values <= old(volumes.Values) + {v}
    {
      hide AnonKey, Contents;
      SameSize(volumes);
      if v.name == "" {
        v.name := AnonKey(|volumes|);
      }
      ContentsUpdate(volumes, v.name, v);
      volumes := volumes[v.name := v];
    }

    /** The loop over the created volumes. */
    method StoreAll(vs: seq<Volume>) returns (recorded: seq<Mount>)
      requires Distinct(vs) && forall v <- vs :: v !in volumes.Values
      modifies `volumes, vs
      ensures View() == old(View()).(volumes := Filled(old(View()).volumes, old(Values(vs))))
      ensures recorded == Recorded(old(View()).volumes, old(Values(vs)))
    {
      ghost var before, infos := View(), Values(vs);
      recorded := [];
      assert infos[..0] == [];
      NoneFilled(before.volumes);
      hide Contents, Filled, Recorded, Name;
      for i := 0 to |vs|
        invariant forall j :: i <= j < |vs| ==> vs[j] !in volumes.Values
        invariant forall j :: i <= j < |vs| ==> vs[j].Value() == infos[j]
        invariant View() == before.(volumes := Filled(before.volumes, infos[..i]))
        invariant recorded == Recorded(before.volumes, infos[..i])
      {
        TakeOne(before.volumes, infos, i);
        Store(vs[i]);
        recorded := recorded + [Mount("", vs[i].containerPath, false, vs[i].name)];
      }
      assert infos[..|vs|] == infos;
    }

    /** `created` is what the provider's CreateVolumesUnder returns: None if it fails, and otherwise new objects. */
    method CopyToHostFromProvider(provider: string, created: Option<seq<Volume>>) returns (ok: bool)
      requires created.Some? ==> Distinct(created.value) && forall v <- created.value :: v !in volumes.Values
      modifies this, if created.Some? then created.value else []
      ensures ok <==> created.Some?
      ensures View() == if ok then AfterCopy(old(View()), provider, old(Values(created.value))) else old(View())
    {
      if created.None? {
        return false;
      }
      hide Contents, Filled, Recorded;
      var recorded := StoreAll(created.value);
      mounts := mounts[provider := recorded];
      return true;
    }

    method WithMounts(mountpoints: seq<Mount>) returns (r: Result<seq<BindMount>>)
      ensures r.Ok? <==> forall mp <- mountpoints :: Key(mp) in volumes
      ensures r.Ok? ==> |r.value| == |mountpoints|
                        && forall i :: 0 <= i < |mountpoints| ==>
                             r.value[i] == Bind(volumes[Key(mountpoints[i])].Value(), volumeDir, mountpoints[i])
      ensures r.Err? ==> exists i :: 0 <= i < |mountpoints| && Key(mountpoints[i]) !in volumes
                                     && (forall j :: 0 <= j < i ==> Key(mountpoints[j]) in volumes)
                                     && r.error == mountpoints[i].source
    {
      hide JoinPath, NamedKey;
      var binds: seq<BindMount> := [];
      for i := 0 to |mountpoints|
        invariant |binds| == i
        invariant forall j :: 0 <= j < i ==> Key(mountpoints[j]) in volumes
        invariant forall j :: 0 <= j < i ==>
            binds[j] == Bind(volumes[Key(mountpoints[j])].Value(), volumeDir, mountpoints[j])
      {
        var mp := mountpoints[i];
        assert mp in mountpoints;
        var key := if mp.key == "" then NamedKey(mp.source) else mp.key;
        if key !in volumes {
          return Err(mp.source);
        }
        var v := volumes[key];
        var options := ["bind"];
        if mp.readOnly {
          options := options + ["ro"];
        }
        var source := if v.vmPath != "" then v.vmPath else JoinPath(volumeDir, v.name);
        binds := binds + [BindMount(source, mp.destination, options)];
      }
      return Ok(binds);
    }

    /** An unknown provider is an error; a provider whose volumes were not created yet has no mounts. */
    method WithMountsFromProvider(name: string) returns (r: Result<seq<BindMount>>)
      ensures name !in providers ==> r == Err(name)
      ensures name in providers ==>
                var mps := if name in mounts then mounts[name] else [];
                && (r.Ok? <==> forall mp <- mps :: Key(mp) in volumes)
                && (r.Ok? ==> |r.value| == |mps|
                              && forall i :: 0 <= i < |mps| ==>
                                   r.value[i] == Bind(volumes[Key(mps[i])].Value(), volumeDir, mps[i]))
    {
      if name !in providers {
        return Err(name);
      }
      r := WithMounts(if name in mounts then mounts[name] else []);
    }
  }

  lemma NoneFilled(volumes: map<string, Info>)
    ensures Filled(volumes, []) == volumes && Recorded(volumes, []) == []
  {
  }

  lemma TakeOne(volumes: map<string, Info>, infos: seq<Info>, i: nat)
    requires i < |infos|
    ensures var m := Filled(volumes, infos[..i]);
            var v := Name(m, infos[i]);
            && Filled(volumes, infos[..i + 1]) == m[v.name := v]
            && Recorded(volumes, infos[..i + 1])
               == Recorded(volumes, infos[..i]) + [Mount("", infos[i].containerPath, false, v.name)]
  {
    var longer := infos[..i + 1];
    assert longer[..|longer| - 1] == infos[..i];
    assert longer[|longer| - 1] == infos[i];
  }

  // ----- runs -----

  function AfterAdd(s: State, v: Info): State {
    s.(volumes := s.volumes[NamedKey(v.name) := v])
  }

  datatype Step = Add(v: Info) | AddFrom(provider: string) | CopyFrom(provider: string, created: seq<Info>)

  function Apply(s: State, step: Step): State {
    match step
    case Add(v) => AfterAdd(s, v)
    case AddFrom(p) => s.(providers := s.providers + {p})
    case CopyFrom(p, created) => AfterCopy(s, p, created)
  }

  function After(s: State, run: seq<Step>): State
    decreases |run|
  {
    if run == [] then s else Apply(After(s, run[..|run| - 1]), run[|run| - 1])
  }

  // The prefixes of the two kinds of keys that the set makes itself.

  predicate LooksNamed(key: string) {
    "named_" <= key
  }

  predicate LooksAnon(key: string) {
    "anon_" <= key
  }

  /** The volumes that a provider gives a name, and not one of the set's own making, have names that are new. */
  ghost predicate Unclashing(volumes: map<string, Info>, created: seq<Info>) {
    forall i :: 0 <= i < |created| && created[i].name != "" ==>
      !LooksNamed(created[i].name) && !LooksAnon(created[i].name) && created[i].name !in Filled(volumes, created[..i])
  }

  /** Volumes are created only by providers of the set: without a name, as every provider of this package does, or with
      a name that does not clash. */
  ghost predicate Legal(s: State, run: seq<Step>)
    decreases |run|
  {
    run == [] ||
    var init, last := run[..|run| - 1], run[|run| - 1];
    && Legal(s, init)
    && (last.CopyFrom? ==>
          last.provider in After(s, init).providers && Unclashing(After(s, init).volumes, last.created))
  }

  const EMPTY := State(map[], map[], {})

  /** Every generated name carries a number below the number of volumes, so the next generated name is new; a volume is
      stored either under "named_" and its name, or under its name. */
  ghost predicate Inv(volumes: map<string, Info>) {
    && (forall j: nat :: AnonKey(j) in volumes ==> j < |volumes|)
    && (forall k <- volumes :: k == NamedKey(volumes[k].name) || (volumes[k].name == k && !LooksNamed(k)))
  }

  lemma Prefixes(j: nat, name: string)
    ensures LooksAnon(AnonKey(j)) && !LooksNamed(AnonKey(j)) && LooksNamed(NamedKey(name))
  {
    assert AnonKey(j)[0] == 'a';
  }

  lemma AnonInjective(i: nat, j: nat)
    requires AnonKey(i) == AnonKey(j)
    ensures i == j
  {
    assert AnonKey(i)[5..] == Decimal(i) && AnonKey(j)[5..] == Decimal(j);
    DecimalInjective(i, j);
  }

  lemma AddKeeps(volumes: map<string, Info>, v: Info)
    requires Inv(volumes)
    ensures Inv(volumes[NamedKey(v.name) := v])
  {
    hide NamedKey, AnonKey;
    var k := NamedKey(v.name);
    var m := volumes[k := v];
    assert |volumes| <= |m| by {
      assert m.Keys == volumes.Keys + {k};
      if k in volumes { assert m.Keys == volumes.Keys; }
    }
    forall j: nat | AnonKey(j) in m ensures j < |m| {
      Prefixes(j, v.name);
    }
  }

  /** The key of a created volume is new. */
  lemma NameKeeps(volumes: map<string, Info>, v: Info)
    requires Inv(volumes)
    requires v.name != "" ==> !LooksNamed(v.name) && !LooksAnon(v.name) && v.name !in volumes
    ensures var n := Name(volumes, v);
            && n == v.(name := n.name) && n.name != "" && !LooksNamed(n.name)
            && n.name !in volumes && Inv(volumes[n.name := n])
  {
    var n := Name(volumes, v);
    assert n.name != "";
    Prefixes(|volumes|, "");
    hide NamedKey, AnonKey, LooksNamed, LooksAnon;
    var m := volumes[n.name := n];
    assert m.Keys == volumes.Keys + {n.name};
    forall j: nat | AnonKey(j) in m ensures j < |m| {
      Prefixes(j, "");
      if AnonKey(j) == n.name {
        AnonInjective(j, |volumes|);
      }
    }
  }

  /** What a provider creates is all new: nothing stored before is displaced, and the mounts lead to the created
      volumes, in order, under different keys. */
  ghost predicate Faithful(before: map<string, Info>, created: seq<Info>, volumes: map<string, Info>,
                           mounts: seq<Mount>)
  {
    && |mounts| == |created|
    && (forall k <- before :: k in volumes && volumes[k] == before[k])
    && (forall i :: 0 <= i < |mounts| ==> mounts[i].key !in before && mounts[i].key in volumes)
    && (forall i :: 0 <= i < |mounts| ==> mounts[i].key != "" && !LooksNamed(mounts[i].key))
    && (forall i :: 0 <= i < |mounts| ==>
          volumes[mounts[i].key] == created[i].(name := mounts[i].key)
          && mounts[i].destination == created[i].containerPath && !mounts[i].readOnly)
    && (forall i, j :: 0 <= i < j < |mounts| ==> mounts[i].key != mounts[j].key)
  }

  lemma {:induction false} FilledIsFaithful(volumes: map<string, Info>, created: seq<Info>)
    requires Inv(volumes) && Unclashing(volumes, created)
    ensures Inv(Filled(volumes, created))
    ensures Faithful(volumes, created, Filled(volumes, created), Recorded(volumes, created))
    decreases |created|
  {
    hide Inv, NamedKey, AnonKey, LooksNamed, LooksAnon;
    if created != [] {
      hide Faithful, Filled, Recorded, Name, Unclashing;
      var n := |created| - 1;
      var init, last := created[..n], created[n];
      UnclashingInit(volumes, created);
      FilledIsFaithful(volumes, init);
      var m := Filled(volumes, init);
      NameKeeps(m, last);
      TakeLast(volumes, created);
      FaithfulStep(volumes, init, m, Recorded(volumes, init), last, Name(m, last));
    }
  }

  lemma TakeLast(volumes: map<string, Info>, created: seq<Info>)
    requires created != []
    ensures var init, last := created[..|created| - 1], created[|created| - 1];
            var n := Name(Filled(volumes, init), last);
            && created == init + [last]
            && Filled(volumes, created) == Filled(volumes, init)[n.name := n]
            && Recorded(volumes, created) == Recorded(volumes, init) + [Mount("", last.containerPath, false, n.name)]
  {
    hide Name;
  }

  lemma UnclashingInit(volumes: map<string, Info>, created: seq<Info>)
    requires Unclashing(volumes, created) && created != []
    ensures var init, last := created[..|created| - 1], created[|created| - 1];
            && Unclashing(volumes, init)
            && (last.name != "" ==>
                  !LooksNamed(last.name) && !LooksAnon(last.name) && last.name !in Filled(volumes, init))
  {
    hide Filled, LooksNamed, LooksAnon;
    var n := |created| - 1;
    var init := created[..n];
    assert created[n].name != "" ==> created[n].name !in Filled(volumes, created[..n]);
    forall i | 0 <= i < |init| && init[i].name != ""
      ensures !LooksNamed(init[i].name) && !LooksAnon(init[i].name) && init[i].name !in Filled(volumes, init[..i])
    {
      assert init[..i] == created[..i] && init[i] == created[i];
    }
  }

  lemma FaithfulStep(before: map<string, Info>, created: seq<Info>, volumes: map<string, Info>, mounts: seq<Mount>,
                     v: Info, n: Info)
    requires Faithful(before, created, volumes, mounts) && n.name !in volumes && n == v.(name := n.name)
    requires n.name != "" && !LooksNamed(n.name)
    ensures Faithful(before, created + [v], volumes[n.name := n], mounts + [Mount("", v.containerPath, false, n.name)])
  {
    hide LooksNamed;
  }

  lemma {:induction false} RunInv(run: seq<Step>)
    requires Legal(EMPTY, run)
    ensures Inv(After(EMPTY, run).volumes)
    decreases |run|
  {
    if run != [] {
      hide Inv, Filled, Recorded;
      var init, last := run[..|run| - 1], run[|run| - 1];
      RunInv(init);
      var s := After(EMPTY, init);
      match last {
        case Add(v) => AddKeeps(s.volumes, v);
        case AddFrom(_) =>
        case CopyFrom(_, created) => FilledIsFaithful(s.volumes, created);
      }
    } else {
      assert Inv(map[]);
    }
  }

  lemma StepKeeps(s: State, step: Step, k: string)
    requires Inv(s.volumes) && k in s.volumes && !LooksNamed(k)
    requires step.CopyFrom? ==> Unclashing(s.volumes, step.created)
    ensures k in Apply(s, step).volumes && Apply(s, step).volumes[k] == s.volumes[k]
  {
    hide Inv, NamedKey, LooksNamed, Filled, Recorded, Unclashing;
    match step
    case Add(v) => Prefixes(0, v.name);
    case AddFrom(_) =>
    case CopyFrom(_, created) => FilledIsFaithful(s.volumes, created);
  }

  lemma {:induction false} LegalSplit(before: seq<Step>, step: Step, rest: seq<Step>)
    requires Legal(EMPTY, before + [step] + rest)
    ensures Legal(EMPTY, before) && Legal(EMPTY, before + [step])
    ensures After(EMPTY, before + [step]) == Apply(After(EMPTY, before), step)
    decreases |rest|
  {
    var run := before + [step] + rest;
    if rest != [] {
      assert run[..|run| - 1] == before + [step] + rest[..|rest| - 1];
      LegalSplit(before, step, rest[..|rest| - 1]);
    } else {
      assert run == before + [step];
      assert run[..|run| - 1] == before && run[|run| - 1] == step;
    }
  }

  lemma {:induction false} MountsStay(before: seq<Step>, step: Step, rest: seq<Step>)
    requires step.CopyFrom? && Legal(EMPTY, before + [step] + rest)
    requires forall later <- rest :: later.CopyFrom? ==> later.provider != step.provider
    ensures var s, t := After(EMPTY, before + [step]), After(EMPTY, before + [step] + rest);
            && step.provider in t.providers && step.provider in s.mounts && step.provider in t.mounts
            && t.mounts[step.provider] == s.mounts[step.provider]
            && forall k <- s.volumes :: !LooksNamed(k) ==> k in t.volumes && t.volumes[k] == s.volumes[k]
    decreases |rest|
  {
    hide Inv, LooksNamed, Filled, Recorded, Unclashing;
    LegalSplit(before, step, rest);
    var run := before + [step] + rest;
    if rest == [] {
      assert run == before + [step];
      assert run[..|run| - 1] == before && run[|run| - 1] == step;
    } else {
      var init, last := rest[..|rest| - 1], rest[|rest| - 1];
      assert run[..|run| - 1] == before + [step] + init && run[|run| - 1] == last;
      MountsStay(before, step, init);
      RunInv(before + [step] + init);
      var s, u := After(EMPTY, before + [step]), After(EMPTY, before + [step] + init);
      forall k | k in s.volumes && !LooksNamed(k)
        ensures k in Apply(u, last).volumes && Apply(u, last).volumes[k] == s.volumes[k]
      {
        StepKeeps(u, last, k);
      }
    }
  }

  /** In `t` the mounts of a provider lead to the volumes it created in `s`, in order, under different keys that were
      new. */
  ghost predicate LeadToOwn(s: State, provider: string, created: seq<Info>, t: State) {
    && provider in t.providers && provider in t.mounts && |t.mounts[provider]| == |created|
    && (forall i :: 0 <= i < |created| ==>
          var mp := t.mounts[provider][i];
          && Key(mp) == mp.key && mp.key !in s.volumes && Key(mp) in t.volumes
          && t.volumes[Key(mp)] == created[i].(name := Key(mp))
          && mp.destination == created[i].containerPath)
    && (forall i, j :: 0 <= i < j < |created| ==> t.mounts[provider][i].key != t.mounts[provider][j].key)
  }

  /** If no names clash, the mounts recorded for a provider lead to the volumes of its last creation, none of them
      shared or replaced, whatever else happens to the set, before or after. */
  lemma UnclashingResolve(before: seq<Step>, provider: string, created: seq<Info>, rest: seq<Step>)
    requires Legal(EMPTY, before + [CopyFrom(provider, created)] + rest)
    requires forall later <- rest :: later.CopyFrom? ==> later.provider != provider
    ensures LeadToOwn(After(EMPTY, before), provider, created,
                      After(EMPTY, before + [CopyFrom(provider, created)] + rest))
  {
    hide NamedKey, LooksNamed, Filled, Recorded, Unclashing;
    var step := CopyFrom(provider, created);
    LegalSplit(before, step, rest);
    var run := before + [step];
    assert run[..|run| - 1] == before && run[|run| - 1] == step;
    RunInv(before);
    var s := After(EMPTY, before);
    FilledIsFaithful(s.volumes, created);
    MountsStay(before, step, rest);
  }

  // ----- what is stored last -----

  datatype Write = Write(key: string, v: Info)

  function Writes(volumes: map<string, Info>, created: seq<Info>): (ws: seq<Write>)
    ensures |ws| == |created|
    decreases |created|
  {
    if created == [] then []
    else
      var init := created[..|created| - 1];
      var v := Name(Filled(volumes, init), created[|created| - 1]);
      Writes(volumes, init) + [Write(v.name, v)]
  }

  function StepWrites(s: State, step: Step): seq<Write> {
    match step
    case Add(v) => [Write(NamedKey(v.name), v)]
    case AddFrom(_) => []
    case CopyFrom(_, created) => Writes(s.volumes, created)
  }

  /** Everything that a run stores, in order. */
  function RunWrites(s: State, run: seq<Step>): seq<Write>
    decreases |run|
  {
    if run == [] then []
    else RunWrites(s, run[..|run| - 1]) + StepWrites(After(s, run[..|run| - 1]), run[|run| - 1])
  }

  /** What was stored last under a key. */
  function Latest(ws: seq<Write>, key: string): Option<Info>
    decreases |ws|
  {
    if ws == [] then None
    else if ws[|ws| - 1].key == key then Some(ws[|ws| - 1].v)
    else Latest(ws[..|ws| - 1], key)
  }

  /** The volumes after some writes: under each key what was stored last. */
  ghost predicate Overwritten(before: map<string, Info>, ws: seq<Write>, after: map<string, Info>) {
    forall k :: && (k in after <==> k in before || Latest(ws, k).Some?)
                && (k in after ==> after[k] == if Latest(ws, k).Some? then Latest(ws, k).value else before[k])
  }

  lemma {:induction false} LatestConcat(a: seq<Write>, b: seq<Write>, key: string)
    ensures Latest(a + b, key) == if Latest(b, key).Some? then Latest(b, key) else Latest(a, key)
    decreases |b|
  {
    if b == [] {
      assert a + b == a;
    } else {
      assert (a + b)[..|a + b| - 1] == a + b[..|b| - 1];
      LatestConcat(a, b[..|b| - 1], key);
    }
  }

  lemma OverwrittenConcat(m0: map<string, Info>, a: seq<Write>, m1: map<string, Info>, b: seq<Write>,
                          m2: map<string, Info>)
    requires Overwritten(m0, a, m1) && Overwritten(m1, b, m2)
    ensures Overwritten(m0, a + b, m2)
  {
    hide Latest;
    forall k ensures Latest(a + b, k) == if Latest(b, k).Some? then Latest(b, k) else Latest(a, k) {
      LatestConcat(a, b, k);
    }
  }

  lemma OneWritten(m: map<string, Info>, w: Write)
    ensures Overwritten(m, [w], m[w.key := w.v])
  {
    forall k ensures Latest([w], k) == if k == w.key then Some(w.v) else None {
      assert [w][..0] == [];
    }
  }

  lemma {:induction false} FilledIsOverwritten(volumes: map<string, Info>, created: seq<Info>)
    ensures Overwritten(volumes, Writes(volumes, created), Filled(volumes, created))
    decreases |created|
  {
    if created != [] {
      hide Overwritten, Name;
      var init, last := created[..|created| - 1], created[|created| - 1];
      var m := Filled(volumes, init);
      var v := Name(m, last);
      FilledIsOverwritten(volumes, init);
      OneWritten(m, Write(v.name, v));
      OverwrittenConcat(volumes, Writes(volumes, init), m, [Write(v.name, v)], m[v.name := v]);
    }
  }

  lemma {:induction false} RunIsOverwritten(s: State, run: seq<Step>)
    ensures Overwritten(s.volumes, RunWrites(s, run), After(s, run).volumes)
    decreases |run|
  {
    if run != [] {
      var init, last := run[..|run| - 1], run[|run| - 1];
      var u := After(s, init);
      RunIsOverwritten(s, init);
      match last {
        case Add(v) => OneWritten(u.volumes, Write(NamedKey(v.name), v));
        case AddFrom(_) =>
        case CopyFrom(_, created) => FilledIsOverwritten(u.volumes, created);
      }
      assert Overwritten(u.volumes, StepWrites(u, last), Apply(u, last).volumes);
      hide Overwritten, NamedKey, Filled, Recorded, Writes;
      OverwrittenConcat(s.volumes, RunWrites(s, init), u.volumes, StepWrites(u, last), Apply(u, last).volumes);
    }
  }

  /** What a creation stores and records, one volume at a time. */
  lemma {:induction false} WriteAt(volumes: map<string, Info>, created: seq<Info>, i: nat)
    requires i < |created|
    ensures var w, mp := Writes(volumes, created)[i], Recorded(volumes, created)[i];
            && mp.key == w.key && w.key != "" && w.v == created[i].(name := w.key)
            && mp.destination == created[i].containerPath
    decreases |created|
  {
    if i < |created| - 1 {
      WriteAt(volumes, created[..|created| - 1], i);
    }
  }

  lemma {:induction false} AfterConcat(s: State, a: seq<Step>, b: seq<Step>)
    ensures After(s, a + b) == After(After(s, a), b)
    decreases |b|
  {
    if b == [] {
      assert a + b == a;
    } else {
      assert (a + b)[..|a + b| - 1] == a + b[..|b| - 1];
      AfterConcat(s, a, b[..|b| - 1]);
    }
  }

  lemma {:induction false} MountsKept(s: State, run: seq<Step>, provider: string)
    requires provider in s.mounts && forall step <- run :: step.CopyFrom? ==> step.provider != provider
    ensures var t := After(s, run); provider in t.mounts && t.mounts[provider] == s.mounts[provider]
    decreases |run|
  {
    if run != [] {
      hide Filled, Recorded;
      MountsKept(s, run[..|run| - 1], provider);
    }
  }

  /** After a creation in `s` and some more steps, the mounts of the provider lead, in order, each to what was stored
      last under its key, the volume of the creation or a later one. */
  ghost predicate LeadToLatest(s: State, provider: string, created: seq<Info>, rest: seq<Step>) {
    var s1 := Apply(s, CopyFrom(provider, created));
    var t := After(s1, rest);
    var ws, later := Writes(s.volumes, created), RunWrites(s1, rest);
    && provider in t.mounts && |t.mounts[provider]| == |created|
    && forall i :: 0 <= i < |created| ==>
         var mp := t.mounts[provider][i];
         && mp.destination == created[i].containerPath && Key(mp) == mp.key && Key(mp) in t.volumes
         && var stored := Latest(ws[i + 1..] + later, Key(mp));
            t.volumes[Key(mp)] == if stored.Some? then stored.value else created[i].(name := Key(mp))
  }

  /** Whatever the providers call their volumes and whatever else happens to the set: each mount recorded for a
      provider leads to what was stored last under its key. If no names clash, that is the volume itself. */
  lemma ProviderMountsResolve(before: seq<Step>, provider: string, created: seq<Info>, rest: seq<Step>)
    requires forall later <- rest :: later.CopyFrom? ==> later.provider != provider
    ensures LeadToLatest(After(EMPTY, before), provider, created, rest)
    ensures After(EMPTY, before + [CopyFrom(provider, created)] + rest)
            == After(Apply(After(EMPTY, before), CopyFrom(provider, created)), rest)
    ensures Legal(EMPTY, before + [CopyFrom(provider, created)] + rest) ==>
            LeadToOwn(After(EMPTY, before), provider, created,
                      After(EMPTY, before + [CopyFrom(provider, created)] + rest))
  {
    ResolvesToLatest(before, provider, created, rest);
    hide After, Legal, LeadToLatest, LeadToOwn, Apply;
    if Legal(EMPTY, before + [CopyFrom(provider, created)] + rest) {
      UnclashingResolve(before, provider, created, rest);
    }
  }

  lemma ResolvesToLatest(before: seq<Step>, provider: string, created: seq<Info>, rest: seq<Step>)
    requires forall later <- rest :: later.CopyFrom? ==> later.provider != provider
    ensures LeadToLatest(After(EMPTY, before), provider, created, rest)
    ensures After(EMPTY, before + [CopyFrom(provider, created)] + rest)
            == After(Apply(After(EMPTY, before), CopyFrom(provider, created)), rest)
  {
    hide After, Apply, LeadToLatest;
    OneMore(before, CopyFrom(provider, created));
    AfterConcat(EMPTY, before + [CopyFrom(provider, created)], rest);
    LeadsToLatest(After(EMPTY, before), provider, created, rest);
  }

  /** Everything that a creation and the steps after it store is what the set holds. */
  lemma RunStores(s: State, provider: string, created: seq<Info>, rest: seq<Step>)
    requires forall later <- rest :: later.CopyFrom? ==> later.provider != provider
    ensures var s1 := Apply(s, CopyFrom(provider, created));
            var t := After(s1, rest);
            && Overwritten(s.volumes, Writes(s.volumes, created) + RunWrites(s1, rest), t.volumes)
            && provider in t.mounts && t.mounts[provider] == Recorded(s.volumes, created)
  {
    hide After, Writes, RunWrites, Filled, Recorded, Overwritten;
    var s1 := Apply(s, CopyFrom(provider, created));
    MountsKept(s1, rest, provider);
    FilledIsOverwritten(s.volumes, created);
    RunIsOverwritten(s1, rest);
    OverwrittenConcat(s.volumes, Writes(s.volumes, created), s1.volumes, RunWrites(s1, rest), After(s1, rest).volumes);
  }

  lemma LeadsToLatest(s: State, provider: string, created: seq<Info>, rest: seq<Step>)
    requires forall later <- rest :: later.CopyFrom? ==> later.provider != provider
    ensures LeadToLatest(s, provider, created, rest)
  {
    hide After, Apply, Writes, RunWrites, Filled, Recorded, NamedKey, Latest, Overwritten;
    RunStores(s, provider, created, rest);
    var s1 := Apply(s, CopyFrom(provider, created));
    var t := After(s1, rest);
    var ws, later := Writes(s.volumes, created), RunWrites(s1, rest);
    forall i | 0 <= i < |created|
      ensures var mp := t.mounts[provider][i];
              && mp.destination == created[i].containerPath && Key(mp) == mp.key && Key(mp) in t.volumes
              && var stored := Latest(ws[i + 1..] + later, Key(mp));
                 t.volumes[Key(mp)] == if stored.Some? then stored.value else created[i].(name := Key(mp))
    {
      WriteAt(s.volumes, created, i);
      StoredAt(s.volumes, ws, later, t.volumes, i);
    }
  }

  lemma StoredAt(before: map<string, Info>, ws: seq<Write>, later: seq<Write>, after: map<string, Info>, i: nat)
    requires i < |ws| && Overwritten(before, ws + later, after)
    ensures var stored := Latest(ws[i + 1..] + later, ws[i].key);
            && ws[i].key in after
            && after[ws[i].key] == if stored.Some? then stored.value else ws[i].v
  {
    assert (ws + later)[i] == ws[i] && (ws + later)[i + 1..] == ws[i + 1..] + later;
    LatestFrom(ws + later, i, ws[i].key);
    hide Latest;
  }

  /** The write at `i` counts unless a later one has its key. */
  lemma LatestFrom(ws: seq<Write>, i: nat, key: string)
    requires i < |ws| && ws[i].key == key
    ensures Latest(ws, key) == if Latest(ws[i + 1..], key).Some? then Latest(ws[i + 1..], key) else Some(ws[i].v)
  {
    assert ws == ws[..i + 1] + ws[i + 1..];
    LatestConcat(ws[..i + 1], ws[i + 1..], key);
  }

  /** The step stores a volume under the key of a volume added by this name. */
  predicate StoresNamed(step: Step, name: string) {
    match step
    case Add(v) => v.name == name
    case AddFrom(_) => false
    case CopyFrom(_, created) => exists v <- created :: v.name == NamedKey(name)
  }

  lemma {:induction false} FilledKeepsNamed(volumes: map<string, Info>, created: seq<Info>, name: string)
    requires NamedKey(name) in volumes && forall v <- created :: v.name != NamedKey(name)
    ensures var m := Filled(volumes, created);
            NamedKey(name) in m && m[NamedKey(name)] == volumes[NamedKey(name)]
    decreases |created|
  {
    if created != [] {
      var init := created[..|created| - 1];
      FilledKeepsNamed(volumes, init, name);
      Prefixes(|Filled(volumes, init)|, name);
      hide NamedKey, AnonKey;
    }
  }

  lemma {:induction false} NamedStays(s: State, run: seq<Step>, name: string)
    requires NamedKey(name) in s.volumes && forall step <- run :: !StoresNamed(step, name)
    ensures var t := After(s, run).volumes;
            NamedKey(name) in t && t[NamedKey(name)] == s.volumes[NamedKey(name)]
    decreases |run|
  {
    if run != [] {
      var init, last := run[..|run| - 1], run[|run| - 1];
      NamedStays(s, init, name);
      assert last in run;
      match last {
        case Add(v) => assert NamedKey(v.name)[6..] == v.name && NamedKey(name)[6..] == name;
        case AddFrom(_) =>
        case CopyFrom(_, created) => FilledKeepsNamed(After(s, init).volumes, created, name);
      }
    }
  }

  /** A mount by name leads to the volume that was added under that name, until another one is: the container gets a
      bind mount at the destination it asked for, read-only exactly if it asked so, from the path in the VM if the
      volume has one and otherwise from the directory of its name. */
  lemma AddedIsMounted(s: State, v: Info, rest: seq<Step>, mp: Mount, volumeDir: string)
    requires mp.key == "" && mp.source == v.name && forall step <- rest :: !StoresNamed(step, v.name)
    ensures var t := After(AfterAdd(s, v), rest);
            && Key(mp) in t.volumes && t.volumes[Key(mp)] == v
            && var bind := Bind(t.volumes[Key(mp)], volumeDir, mp);
               && bind.destination == mp.destination
               && bind.source == (if v.vmPath != "" then v.vmPath else JoinPath(volumeDir, v.name))
               && "bind" in bind.options && ("ro" in bind.options <==> mp.readOnly)
  {
    NamedStays(AfterAdd(s, v), rest, v.name);
    hide After, JoinPath, StoresNamed;
  }

  /** Providers that both name a volume "data" do clash: the mount of the first leads to the volume of the second. */
  lemma NamesClash(s: State, p: string, q: string, v: Info, w: Info)
    requires p != q && v.name == w.name == "data"
    ensures var t := AfterCopy(AfterCopy(s, p, [v]), q, [w]);
            && p in t.mounts && |t.mounts[p]| == 1 && Key(t.mounts[p][0]) in t.volumes
            && t.mounts[p][0].destination == v.containerPath && t.volumes[Key(t.mounts[p][0])] == w
  {
    TakeOne(s.volumes, [v], 0);
    assert [v][..1] == [v] && [v][..0] == [];
    var s1 := AfterCopy(s, p, [v]);
    TakeOne(s1.volumes, [w], 0);
    assert [w][..1] == [w] && [w][..0] == [];
  }

  // ----- directories -----

  /** Two different volumes of the set carry one name, under which their files are copied and mounted. */
  ghost predicate ShareName(volumes: map<string, Info>) {
    exists k <- volumes, l <- volumes :: k != l && volumes[k].name == volumes[l].name
  }

  /** One volume was added under the name that another one, created by a provider, has. */
  ghost predicate NameTaken(volumes: map<string, Info>) {
    exists n <- volumes :: volumes[n].name == n && NamedKey(n) in volumes && volumes[NamedKey(n)].name == n
  }

  /** A volume is stored either under "named_" and its name, or under its name. */
  ghost predicate KeyedByName(volumes: map<string, Info>) {
    forall k <- volumes :: k == NamedKey(volumes[k].name) || k == volumes[k].name
  }

  lemma {:induction false} FilledIsKeyed(volumes: map<string, Info>, created: seq<Info>)
    requires KeyedByName(volumes)
    ensures KeyedByName(Filled(volumes, created))
    decreases |created|
  {
    hide NamedKey, Name;
    if created != [] {
      FilledIsKeyed(volumes, created[..|created| - 1]);
    }
  }

  lemma {:induction false} RunIsKeyed(run: seq<Step>)
    ensures KeyedByName(After(EMPTY, run).volumes)
    decreases |run|
  {
    if run != [] {
      hide NamedKey, Filled, Recorded;
      var init, last := run[..|run| - 1], run[|run| - 1];
      RunIsKeyed(init);
      if last.CopyFrom? {
        FilledIsKeyed(After(EMPTY, init).volumes, last.created);
      }
    }
  }

  lemma ShareNameIff(run: seq<Step>)
    ensures ShareName(After(EMPTY, run).volumes) <==> NameTaken(After(EMPTY, run).volumes)
  {
    hide After;
    RunIsKeyed(run);
    var m := After(EMPTY, run).volumes;
    if ShareName(m) {
      var k, l :| k in m && l in m && k != l && m[k].name == m[l].name;
      var n := m[k].name;
      assert n in m && m[n].name == n && NamedKey(n) in m && m[NamedKey(n)].name == n;
    }
    if n :| n in m && m[n].name == n && NamedKey(n) in m && m[NamedKey(n)].name == n {
      assert |NamedKey(n)| != |n|;
      assert n in m && NamedKey(n) in m && n != NamedKey(n) && m[n].name == m[NamedKey(n)].name;
    }
  }

  /** Two different volumes of the set have one directory below `dir` as the source of their mounts. */
  ghost predicate ShareDirectory(volumes: map<string, Info>, dir: string) {
    exists k <- volumes, l <- volumes :: k != l && JoinPath(dir, volumes[k].name) == JoinPath(dir, volumes[l].name)
  }

  /** Where a name leads from a directory: whether from the root, and through which elements. Nothing joined to nothing
      is no path at all. */
  function Place(dir: string, name: string): Option<(bool, seq<string>)> {
    if dir == "" && name == "" then None
    else
      var path := if dir == "" then name else if name == "" then dir else dir + "/" + name;
      Some((Paths.IsAbs(path), Paths.Components(path)))
  }

  lemma SamePathIff(dir: string, a: string, b: string)
    ensures JoinPath(dir, a) == JoinPath(dir, b) <==> Place(dir, a) == Place(dir, b)
  {
    var p := if dir == "" then a else if a == "" then dir else dir + "/" + a;
    var q := if dir == "" then b else if b == "" then dir else dir + "/" + b;
    Paths.CleanInjective(p, q);
    Paths.CleanNotEmpty(p);
    Paths.CleanNotEmpty(q);
    hide Paths.Clean, Paths.Components;
  }

  ghost predicate SharePlace(volumes: map<string, Info>, dir: string) {
    exists k <- volumes, l <- volumes :: k != l && Place(dir, volumes[k].name) == Place(dir, volumes[l].name)
  }

  /** In every run, two volumes have one directory if and only if their names lead to the same place. If all names are
      single path elements, that is if and only if a volume was added under the name that another one has. */
  lemma ShareDirectoryIff(run: seq<Step>, dir: string)
    ensures var m := After(EMPTY, run).volumes;
            && (ShareDirectory(m, dir) <==> SharePlace(m, dir))
            && (dir != "" && (forall k <- m :: Paths.IsComponent(m[k].name)) ==>
                  (ShareDirectory(m, dir) <==> NameTaken(m)))
  {
    hide After, NameTaken, JoinPath, Place, Paths.IsComponent;
    var m := After(EMPTY, run).volumes;
    forall k, l | k in m && l in m
      ensures JoinPath(dir, m[k].name) == JoinPath(dir, m[l].name) <==> Place(dir, m[k].name) == Place(dir, m[l].name)
    {
      SamePathIff(dir, m[k].name, m[l].name);
    }
    SamePlaces(m, dir);
    ShareNameIff(run);
    if dir != "" && forall k <- m :: Paths.IsComponent(m[k].name) {
      PlainNames(m, dir);
    }
  }

  lemma SamePlaces(m: map<string, Info>, dir: string)
    requires forall k, l :: k in m && l in m ==>
               (JoinPath(dir, m[k].name) == JoinPath(dir, m[l].name)
                <==> Place(dir, m[k].name) == Place(dir, m[l].name))
    ensures ShareDirectory(m, dir) <==> SharePlace(m, dir)
  {
    hide JoinPath, Place;
    if ShareDirectory(m, dir) {
      var k, l :| k in m && l in m && k != l && JoinPath(dir, m[k].name) == JoinPath(dir, m[l].name);
      assert Place(dir, m[k].name) == Place(dir, m[l].name);
    }
    if SharePlace(m, dir) {
      var k, l :| k in m && l in m && k != l && Place(dir, m[k].name) == Place(dir, m[l].name);
      assert JoinPath(dir, m[k].name) == JoinPath(dir, m[l].name);
    }
  }

  lemma PlainNames(m: map<string, Info>, dir: string)
    requires dir != "" && forall k <- m :: Paths.IsComponent(m[k].name)
    ensures ShareDirectory(m, dir) <==> ShareName(m)
  {
    hide JoinPath, Paths.IsComponent;
    if ShareDirectory(m, dir) {
      var k, l :| k in m && l in m && k != l && JoinPath(dir, m[k].name) == JoinPath(dir, m[l].name);
      ChildOf(dir, m[k].name, m[l].name);
    }
    if ShareName(m) {
      var k, l :| k in m && l in m && k != l && m[k].name == m[l].name;
      assert JoinPath(dir, m[k].name) == JoinPath(dir, m[l].name);
    }
  }

  lemma ChildOf(dir: string, a: string, b: string)
    requires dir != "" && Paths.IsComponent(a) && Paths.IsComponent(b)
    ensures JoinPath(dir, a) == JoinPath(dir, b) <==> a == b
  {
    hide Paths.Clean;
    Paths.ChildPathsDiffer(dir, a, b);
  }

  /** It does happen: a volume added as "anon_1", and then one created by a provider. */
  lemma SharedName(provider: string)
    ensures var run := [AddFrom(provider), Add(Info("anon_1", "", "", "")),
                        CopyFrom(provider, [Info("", "", "", "/data")])];
            Legal(EMPTY, run) && ShareName(After(EMPTY, run).volumes)
  {
    var run := AddedAnon(provider);
    var copy := CopyFrom(provider, [Info("", "", "", "/data")]);
    hide After, Legal, Filled, Recorded;
    OneMore(run, copy);
    assert run + [copy] == [AddFrom(provider), Add(Info("anon_1", "", "", "")), copy];
    var s := After(EMPTY, run);
    assert s.volumes.Keys == {NamedKey("anon_1")};
    TakeLast(s.volumes, copy.created);
    assert copy.created[..0] == [] && Filled(s.volumes, []) == s.volumes by { NoneFilled(s.volumes); }
    assert AnonKey(1) == "anon_1" by { assert Decimal(1) == "1"; }
    Prefixes(1, "anon_1");
    hide NamedKey, AnonKey;
    var t := Apply(s, copy).volumes;
    assert t[AnonKey(1)].name == t[NamedKey("anon_1")].name;
  }

  lemma AddedAnon(provider: string) returns (run: seq<Step>)
    ensures run == [AddFrom(provider), Add(Info("anon_1", "", "", ""))] && Legal(EMPTY, run)
    ensures var s := After(EMPTY, run);
            s.volumes == map[NamedKey("anon_1") := Info("anon_1", "", "", "")] && s.providers == {provider}
  {
    var add := Add(Info("anon_1", "", "", ""));
    assert [] + [AddFrom(provider)] == [AddFrom(provider)] && [AddFrom(provider)] + [add] == [AddFrom(provider), add];
    OneMore([], AddFrom(provider));
    OneMore([AddFrom(provider)], add);
    run := [AddFrom(provider), add];
  }

  lemma OneMore(run: seq<Step>, step: Step)
    ensures After(EMPTY, run + [step]) == Apply(After(EMPTY, run), step)
    ensures Legal(EMPTY, run + [step])
            <==> Legal(EMPTY, run)
                 && (step.CopyFrom? ==>
                       && step.provider in After(EMPTY, run).providers
                       && Unclashing(After(EMPTY, run).volumes, step.created))
  {
  }
}
