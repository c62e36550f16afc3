/** Planning a bundle's mounts and payload files (`bundle.rs`).

    A plan is described item by item: item `i` has a fault that depends on the
    items before it, the planners stop at the first fault, and an accepted plan
    holds exactly one entry per item. */
module Bundle {
  import opened TaskStates
  import opened Paths
  import Decimal

  type Path = seq<string>

  datatype Result<T> = Ok(value: T) | Err(error: PlanError)

  datatype Kind = Secret | Config

  datatype Reason = Empty | Absolute | Dots

  datatype PlanError =
    | RelativeMountTarget(target: string)
    | DuplicateMountTarget(target: string)
    | MissingMountSource(mount: MountType, target: string)
    | UnresolvedVolume(name: string)
    | BadFileTarget(kind: Kind, name: string, target: string, reason: Reason)
    | NonNumericFileOwner(kind: Kind, name: string, owner: string)
    | DuplicateDependencyTarget(kind: Kind, target: string)

  // ---- Caller mounts -------------------------------------------------------

  datatype MountType = Bind | Volume | Tmpfs

  datatype Mount = Mount(kind: MountType, source: Option<string>, target: string, readOnly: bool)

  datatype Fstype = Nullfs | TmpfsType

  datatype BundleMount = BundleMount(fstype: Fstype, source: string, target: string, options: seq<string>)

  /** What is wrong with mount `i`, in the order the planner looks. */
  function MountFault(mounts: seq<Mount>, volumes: map<string, string>, i: nat): Option<PlanError>
    requires i < |mounts|
  {
    var m := mounts[i];
    if !IsAbsolute(m.target) then Some(RelativeMountTarget(m.target))
    else if exists j :: 0 <= j < i && mounts[j].target == m.target then Some(DuplicateMountTarget(m.target))
    else if !m.kind.Tmpfs? && m.source.None? then Some(MissingMountSource(m.kind, m.target))
    else if m.kind.Volume? && m.source.value !in volumes then Some(UnresolvedVolume(m.source.value))
    else None
  }

  /** The mount a faultless entry becomes. */
  function Planned(m: Mount, volumes: map<string, string>): BundleMount
    requires !m.kind.Tmpfs? ==> m.source.Some?
    requires m.kind.Volume? ==> m.source.value in volumes
  {
    var ro := if m.readOnly then ["ro"] else [];
    match m.kind
    case Bind => BundleMount(Nullfs, m.source.value, m.target, ro)
    case Volume => BundleMount(Nullfs, volumes[m.source.value], m.target, ro)
    case Tmpfs => BundleMount(TmpfsType, "tmpfs", m.target, ["mode=1777"] + ro)
  }

  ghost predicate PlannedAre(planned: seq<BundleMount>, mounts: seq<Mount>, volumes: map<string, string>)
    requires |planned| <= |mounts|
  {
    forall i :: 0 <= i < |planned| ==>
      MountFault(mounts, volumes, i).None? && planned[i] == Planned(mounts[i], volumes)
  }

  /** `plan_mounts`: an accepted list is planned entry by entry; a refused one
      is refused for its first faulty entry. */
  method PlanMounts(mounts: seq<Mount>, volumes: map<string, string>) returns (r: Result<seq<BundleMount>>)
    ensures r.Ok? <==> forall i :: 0 <= i < |mounts| ==> MountFault(mounts, volumes, i).None?
    ensures r.Ok? ==> |r.value| == |mounts| && PlannedAre(r.value, mounts, volumes)
    ensures r.Err? ==> exists i :: 0 <= i < |mounts| && MountFault(mounts, volumes, i) == Some(r.error)
                                && forall j :: 0 <= j < i ==> MountFault(mounts, volumes, j).None?
  {
    var seen: set<string> := {};
    var planned: seq<BundleMount> := [];
    for i := 0 to |mounts|
      invariant seen == set j | 0 <= j < i :: mounts[j].target
      invariant forall j :: 0 <= j < i ==> MountFault(mounts, volumes, j).None?
      invariant |planned| == i && PlannedAre(planned, mounts, volumes)
    {
      var m := mounts[i];
      ghost var fault := MountFault(mounts, volumes, i);
      if !IsAbsolute(m.target) {
        return Err(RelativeMountTarget(m.target));
      }
      if m.target in seen {
        return Err(DuplicateMountTarget(m.target));
      }
      seen := seen + {m.target};
      var fstype, source, options := TmpfsType, "tmpfs", ["mode=1777"];
      match m.kind {
        case Bind =>
          if m.source.None? {
            return Err(MissingMountSource(Bind, m.target));
          }
          fstype, source, options := Nullfs, m.source.value, [];
        case Volume =>
          if m.source.None? {
            return Err(MissingMountSource(Volume, m.target));
          }
          if m.source.value !in volumes {
            return Err(UnresolvedVolume(m.source.value));
          }
          fstype, source, options := Nullfs, volumes[m.source.value], [];
        case Tmpfs =>
      }
      if m.readOnly {
        options := options + ["ro"];
      }
      planned := planned + [BundleMount(fstype, source, m.target, options)];
    }
    r := Ok(planned);
  }

  // ---- Secrets and configs -------------------------------------------------

  datatype FileTarget = FileTarget(name: string, uid: string, gid: string, mode: nat)

  datatype Reference = Reference(id: string, name: string, file: FileTarget)

  datatype PayloadFile = PayloadFile(id: string, name: string, path: Path, uid: nat, gid: nat, mode: nat)

  datatype DependencyPlan =
    DependencyPlan(secretFiles: seq<PayloadFile>, configFiles: seq<PayloadFile>, mounts: seq<BundleMount>)

  const SECRETS_TARGET_DIR := "/run/secrets"
  const CONFIGS_BUNDLE_SUBDIR := "configs"
  const SECRETS_TMPFS_SLACK: nat := 64 * 1024
  const SECRETS_TMPFS_MIN: nat := 128 * 1024

  /** `secrets_tmpfs_size`. */
  function SecretsTmpfsSize(total: nat): (size: nat)
    ensures size >= total + SECRETS_TMPFS_SLACK && size >= SECRETS_TMPFS_MIN
    ensures size == total + SECRETS_TMPFS_SLACK || size == SECRETS_TMPFS_MIN
  {
    var size := total + SECRETS_TMPFS_SLACK;
    if size > SECRETS_TMPFS_MIN then size else SECRETS_TMPFS_MIN
  }

  /** `parse_file_owner`. */
  function Owner(s: string): Option<nat> { if s == "" then Some(0) else Decimal.ParseU32(s) }

  function OwnerFault(kind: Kind, r: Reference): Option<PlanError>
  {
    if Owner(r.file.uid).None? then Some(NonNumericFileOwner(kind, r.name, r.file.uid))
    else if Owner(r.file.gid).None? then Some(NonNumericFileOwner(kind, r.name, r.file.gid))
    else None
  }

  /** `secret_relative_target`: the names below /run/secrets. */
  function SecretTarget(r: Reference): Result<Path>
  {
    var t := r.file.name;
    if t == "" then Err(BadFileTarget(Secret, r.name, t, Empty))
    else if IsAbsolute(t) then Err(BadFileTarget(Secret, r.name, t, Absolute))
    else if !AllNormal(Components(t)) then Err(BadFileTarget(Secret, r.name, t, Dots))
    else Ok(Names(Components(t)))
  }

  /** `config_absolute_target`: the path inside the jail, as spelled. */
  function ConfigTarget(r: Reference): Result<string>
  {
    var t := r.file.name;
    var absolute := if IsAbsolute(t) then t else "/" + t;
    if t == "" then Err(BadFileTarget(Config, r.name, t, Empty))
    else if !AllNormal(Components(absolute)[1..]) then Err(BadFileTarget(Config, r.name, t, Dots))
    else Ok(absolute)
  }

  function SecretFault(refs: seq<Reference>, i: nat): Option<PlanError>
    requires i < |refs|
  {
    if SecretTarget(refs[i]).Err? then Some(SecretTarget(refs[i]).error)
    else if exists j :: 0 <= j < i && SecretTarget(refs[j]) == SecretTarget(refs[i]) then
      Some(DuplicateDependencyTarget(Secret, refs[i].file.name))
    else OwnerFault(Secret, refs[i])
  }

  function ConfigFault(refs: seq<Reference>, i: nat): Option<PlanError>
    requires i < |refs|
  {
    if ConfigTarget(refs[i]).Err? then Some(ConfigTarget(refs[i]).error)
    else if exists j :: 0 <= j < i && ConfigTarget(refs[j]) == ConfigTarget(refs[i]) then
      Some(DuplicateDependencyTarget(Config, ConfigTarget(refs[i]).value))
    else OwnerFault(Config, refs[i])
  }

  function SecretFile(r: Reference, rootfs: Path): PayloadFile
    requires SecretTarget(r).Ok? && OwnerFault(Secret, r).None?
  {
    PayloadFile(r.id, r.name, rootfs + ["run", "secrets"] + SecretTarget(r).value,
                Owner(r.file.uid).value, Owner(r.file.gid).value, r.file.mode)
  }

  function ConfigFile(r: Reference, bundleDir: Path, index: nat): PayloadFile
    requires OwnerFault(Config, r).None?
  {
    PayloadFile(r.id, r.name, bundleDir + [CONFIGS_BUNDLE_SUBDIR, Decimal.Digits(index)],
                Owner(r.file.uid).value, Owner(r.file.gid).value, r.file.mode)
  }

  function SecretsMount(total: nat): BundleMount
  {
    BundleMount(TmpfsType, "tmpfs", SECRETS_TARGET_DIR,
                ["size=" + Decimal.Digits(SecretsTmpfsSize(total)), "mode=0755"])
  }

  function ConfigMount(r: Reference, bundleDir: Path, index: nat): BundleMount
    requires ConfigTarget(r).Ok?
  {
    BundleMount(Nullfs, Render(bundleDir + [CONFIGS_BUNDLE_SUBDIR, Decimal.Digits(index)]),
                ConfigTarget(r).value, ["ro"])
  }

  ghost predicate SecretsFine(refs: seq<Reference>, n: nat)
    requires n <= |refs|
  {
    forall i :: 0 <= i < n ==> SecretFault(refs, i).None?
  }

  ghost predicate ConfigsFine(refs: seq<Reference>, n: nat)
    requires n <= |refs|
  {
    forall i :: 0 <= i < n ==> ConfigFault(refs, i).None?
  }

  ghost predicate SecretFilesAre(files: seq<PayloadFile>, refs: seq<Reference>, rootfs: Path)
    requires |files| <= |refs|
  {
    forall i :: 0 <= i < |files| ==> SecretFault(refs, i).None? && files[i] == SecretFile(refs[i], rootfs)
  }

  ghost predicate ConfigFilesAre(files: seq<PayloadFile>, refs: seq<Reference>, bundleDir: Path)
    requires |files| <= |refs|
  {
    forall i :: 0 <= i < |files| ==> ConfigFault(refs, i).None? && files[i] == ConfigFile(refs[i], bundleDir, i)
  }

  ghost predicate ConfigMountsAre(mounts: seq<BundleMount>, refs: seq<Reference>, bundleDir: Path)
    requires |mounts| <= |refs|
  {
    forall i :: 0 <= i < |mounts| ==> ConfigFault(refs, i).None? && mounts[i] == ConfigMount(refs[i], bundleDir, i)
  }

  /** An accepted plan: one file per reference in the spec's order, the secrets
      tmpfs if there are secrets, then one read-only mount per config. */
  ghost predicate IsPlan(
    plan: DependencyPlan, secrets: seq<Reference>, configs: seq<Reference>, rootfs: Path, bundleDir: Path, total: nat)
  {
    && SecretsFine(secrets, |secrets|) && ConfigsFine(configs, |configs|)
    && |plan.secretFiles| == |secrets| && SecretFilesAre(plan.secretFiles, secrets, rootfs)
    && |plan.configFiles| == |configs| && ConfigFilesAre(plan.configFiles, configs, bundleDir)
    && var tmpfs := if secrets == [] then [] else [SecretsMount(total)];
       && |plan.mounts| == |tmpfs| + |configs| && plan.mounts[..|tmpfs|] == tmpfs
       && ConfigMountsAre(plan.mounts[|tmpfs|..], configs, bundleDir)
  }

  /** The first fault in the order of planning: secrets, then configs. */
  ghost predicate IsFirstFault(e: PlanError, secrets: seq<Reference>, configs: seq<Reference>)
  {
    || (exists i :: 0 <= i < |secrets| && SecretsFine(secrets, i) && SecretFault(secrets, i) == Some(e))
    || (&& SecretsFine(secrets, |secrets|)
        && exists i :: 0 <= i < |configs| && ConfigsFine(configs, i) && ConfigFault(configs, i) == Some(e))
  }

  /** `targets` holds exactly the secret targets already taken. */
  ghost predicate SecretsSeen(targets: set<Path>, secrets: seq<Reference>, n: nat)
    requires n <= |secrets|
  {
    forall t :: t in targets <==> exists j :: 0 <= j < n && SecretTarget(secrets[j]) == Ok(t)
  }

  ghost predicate ConfigsSeen(targets: set<string>, configs: seq<Reference>, n: nat)
    requires n <= |configs|
  {
    forall t :: t in targets <==> exists j :: 0 <= j < n && ConfigTarget(configs[j]) == Ok(t)
  }

  lemma SecretSeen(targets: set<Path>, secrets: seq<Reference>, n: nat)
    requires n < |secrets| && SecretsSeen(targets, secrets, n) && SecretTarget(secrets[n]).Ok?
    ensures SecretsSeen(targets + {SecretTarget(secrets[n]).value}, secrets, n + 1)
  {
  }

  lemma ConfigSeen(targets: set<string>, configs: seq<Reference>, n: nat)
    requires n < |configs| && ConfigsSeen(targets, configs, n) && ConfigTarget(configs[n]).Ok?
    ensures ConfigsSeen(targets + {ConfigTarget(configs[n]).value}, configs, n + 1)
  {
  }

  method ParseOwners(kind: Kind, r: Reference) returns (o: Result<(nat, nat)>)
    ensures o.Ok? <==> OwnerFault(kind, r).None?
    ensures o.Ok? ==> Owner(r.file.uid) == Some(o.value.0) && Owner(r.file.gid) == Some(o.value.1)
    ensures o.Err? ==> OwnerFault(kind, r) == Some(o.error)
  {
    var uid := Owner(r.file.uid);
    if uid.None? {
      return Err(NonNumericFileOwner(kind, r.name, r.file.uid));
    }
    var gid := Owner(r.file.gid);
    if gid.None? {
      return Err(NonNumericFileOwner(kind, r.name, r.file.gid));
    }
    o := Ok((uid.value, gid.value));
  }

  method PlanSecret(secrets: seq<Reference>, i: nat, targets: set<Path>, rootfs: Path) returns (r: Result<PayloadFile>)
    requires i < |secrets| && SecretsSeen(targets, secrets, i)
    ensures r.Ok? <==> SecretFault(secrets, i).None?
    ensures r.Ok? ==> r.value == SecretFile(secrets[i], rootfs)
    ensures r.Err? ==> SecretFault(secrets, i) == Some(r.error)
  {
    var s := secrets[i];
    var relative := SecretTarget(s);
    if relative.Err? {
      return Err(relative.error);
    }
    if relative.value in targets {
      return Err(DuplicateDependencyTarget(Secret, s.file.name));
    }
    var owners := ParseOwners(Secret, s);
    if owners.Err? {
      return Err(owners.error);
    }
    r := Ok(PayloadFile(s.id, s.name, rootfs + ["run", "secrets"] + relative.value, owners.value.0, owners.value.1, s.file.mode));
  }

  method PlanConfig(configs: seq<Reference>, i: nat, targets: set<string>, bundleDir: Path)
    returns (r: Result<(PayloadFile, BundleMount)>)
    requires i < |configs| && ConfigsSeen(targets, configs, i)
    ensures r.Ok? <==> ConfigFault(configs, i).None?
    ensures r.Ok? ==> r.value == (ConfigFile(configs[i], bundleDir, i), ConfigMount(configs[i], bundleDir, i))
    ensures r.Err? ==> ConfigFault(configs, i) == Some(r.error)
  {
    var c := configs[i];
    var target := ConfigTarget(c);
    if target.Err? {
      return Err(target.error);
    }
    if target.value in targets {
      return Err(DuplicateDependencyTarget(Config, target.value));
    }
    var source := bundleDir + [CONFIGS_BUNDLE_SUBDIR, Decimal.Digits(i)];
    var owners := ParseOwners(Config, c);
    if owners.Err? {
      return Err(owners.error);
    }
    r := Ok((PayloadFile(c.id, c.name, source, owners.value.0, owners.value.1, c.file.mode),
             BundleMount(Nullfs, Render(source), target.value, ["ro"])));
  }

  method PlanSecrets(secrets: seq<Reference>, rootfs: Path) returns (r: Result<seq<PayloadFile>>)
    ensures r.Ok? ==> SecretsFine(secrets, |secrets|) && |r.value| == |secrets| && SecretFilesAre(r.value, secrets, rootfs)
    ensures r.Err? ==> exists i :: 0 <= i < |secrets| && SecretsFine(secrets, i) && SecretFault(secrets, i) == Some(r.error)
  {
    var targets: set<Path> := {};
    var files: seq<PayloadFile> := [];
    for i := 0 to |secrets|
      invariant |files| == i && SecretsFine(secrets, i) && SecretFilesAre(files, secrets, rootfs)
      invariant SecretsSeen(targets, secrets, i)
    {
      var file := PlanSecret(secrets, i, targets, rootfs);
      if file.Err? {
        return Err(file.error);
      }
      SecretSeen(targets, secrets, i);
      targets := targets + {SecretTarget(secrets[i]).value};
      files := files + [file.value];
    }
    r := Ok(files);
  }

  lemma ConfigPlanned(files: seq<PayloadFile>, mounts: seq<BundleMount>, configs: seq<Reference>, bundleDir: Path)
    requires var i := |files|;
             && i < |configs| && |mounts| == i && ConfigsFine(configs, i) && ConfigFault(configs, i).None?
             && ConfigFilesAre(files, configs, bundleDir) && ConfigMountsAre(mounts, configs, bundleDir)
    ensures var i := |files|;
            && ConfigsFine(configs, i + 1)
            && ConfigFilesAre(files + [ConfigFile(configs[i], bundleDir, i)], configs, bundleDir)
            && ConfigMountsAre(mounts + [ConfigMount(configs[i], bundleDir, i)], configs, bundleDir)
  {
  }

  method PlanConfigs(configs: seq<Reference>, bundleDir: Path)
    returns (r: Result<(seq<PayloadFile>, seq<BundleMount>)>)
    ensures r.Ok? ==> && ConfigsFine(configs, |configs|)
                      && |r.value.0| == |configs| && ConfigFilesAre(r.value.0, configs, bundleDir)
                      && |r.value.1| == |configs| && ConfigMountsAre(r.value.1, configs, bundleDir)
    ensures r.Err? ==> exists i :: 0 <= i < |configs| && ConfigsFine(configs, i) && ConfigFault(configs, i) == Some(r.error)
  {
    var targets: set<string> := {};
    var files: seq<PayloadFile> := [];
    var mounts: seq<BundleMount> := [];
    for i := 0 to |configs|
      invariant |files| == i && ConfigsFine(configs, i) && ConfigFilesAre(files, configs, bundleDir)
      invariant |mounts| == i && ConfigMountsAre(mounts, configs, bundleDir)
      invariant ConfigsSeen(targets, configs, i)
    {
      var planned := PlanConfig(configs, i, targets, bundleDir);
      if planned.Err? {
        return Err(planned.error);
      }
      ConfigSeen(targets, configs, i);
      ConfigPlanned(files, mounts, configs, bundleDir);
      targets := targets + {ConfigTarget(configs[i]).value};
      files := files + [planned.value.0];
      mounts := mounts + [planned.value.1];
    }
    r := Ok((files, mounts));
  }

  /** `plan_dependencies`. */
  method PlanDependencies(
    secrets: seq<Reference>, configs: seq<Reference>, rootfs: Path, bundleDir: Path, total: nat)
    returns (r: Result<DependencyPlan>)
    ensures r.Ok? <==> SecretsFine(secrets, |secrets|) && ConfigsFine(configs, |configs|)
    ensures r.Ok? ==> IsPlan(r.value, secrets, configs, rootfs, bundleDir, total)
    ensures r.Err? ==> IsFirstFault(r.error, secrets, configs)
  {
    var s := PlanSecrets(secrets, rootfs);
    if s.Err? {
      return Err(s.error);
    }
    var mounts: seq<BundleMount> := [];
    if secrets != [] {
      mounts := mounts + [SecretsMount(total)];
    }
    var c := PlanConfigs(configs, bundleDir);
    if c.Err? {
      return Err(c.error);
    }
    ghost var tmpfs := mounts;
    mounts := mounts + c.value.1;
    assert mounts[|tmpfs|..] == c.value.1;
    r := Ok(DependencyPlan(s.value, c.value.0, mounts));
  }

  // ---- What is planned -----------------------------------------------------

  /** A caller's mount is what the caller asked for: at its target, read-only
      exactly on request, from its own source, its volume's, or a tmpfs open to
      all. */
  lemma CallerMountsAreAsAsked(m: Mount, volumes: map<string, string>)
    requires !m.kind.Tmpfs? ==> m.source.Some?
    requires m.kind.Volume? ==> m.source.value in volumes
    ensures var b := Planned(m, volumes);
            && b.target == m.target && ("ro" in b.options <==> m.readOnly)
            && (b.fstype == TmpfsType <==> m.kind.Tmpfs?) && ("mode=1777" in b.options <==> m.kind.Tmpfs?)
            && (m.kind.Bind? ==> Some(b.source) == m.source)
            && (m.kind.Volume? ==> b.source == volumes[m.source.value])
            && (m.kind.Tmpfs? ==> b.source == "tmpfs")
  {
  }

  /** The file of a reference carries its object, name, mode and owners; an owner
      is a decimal number, and root if none is given. */
  ghost predicate Carries(file: PayloadFile, r: Reference)
  {
    && file.id == r.id && file.name == r.name && file.mode == r.file.mode
    && (if r.file.uid == "" then file.uid == 0 else Decimal.ParseU32(r.file.uid) == Some(file.uid))
    && (if r.file.gid == "" then file.gid == 0 else Decimal.ParseU32(r.file.gid) == Some(file.gid))
  }

  lemma FilesCarryTheirReferences(
    plan: DependencyPlan, secrets: seq<Reference>, configs: seq<Reference>, rootfs: Path, bundleDir: Path, total: nat)
    requires IsPlan(plan, secrets, configs, rootfs, bundleDir, total)
    ensures forall i :: 0 <= i < |secrets| ==> Carries(plan.secretFiles[i], secrets[i])
    ensures forall i :: 0 <= i < |configs| ==> Carries(plan.configFiles[i], configs[i])
  {
    forall i | 0 <= i < |secrets| ensures Carries(plan.secretFiles[i], secrets[i]) {
      assert SecretFault(secrets, i).None?;
    }
    forall i | 0 <= i < |configs| ensures Carries(plan.configFiles[i], configs[i]) {
      assert ConfigFault(configs, i).None?;
    }
  }

  /** In the jail, the path of a secret below /run/secrets leads to its file. */
  lemma SecretsAreWhereTheySay(
    plan: DependencyPlan, secrets: seq<Reference>, configs: seq<Reference>, rootfs: Path, bundleDir: Path, total: nat, i: nat)
    requires IsPlan(plan, secrets, configs, rootfs, bundleDir, total) && i < |secrets|
    ensures plan.secretFiles[i].path == rootfs + Place(SECRETS_TARGET_DIR + "/" + secrets[i].file.name)
    ensures plan.mounts != [] && plan.mounts[0].fstype == TmpfsType && Place(plan.mounts[0].target) == ["run", "secrets"]
  {
    assert SecretFault(secrets, i).None?;
    SecretIsWhereItSays(secrets[i], rootfs);
    SecretsDirIsCanonical();
    assert plan.mounts[0] == plan.mounts[..1][0];
  }

  lemma SecretIsWhereItSays(r: Reference, rootfs: Path)
    requires SecretTarget(r).Ok? && OwnerFault(Secret, r).None?
    ensures SecretFile(r, rootfs).path == rootfs + Place(SECRETS_TARGET_DIR + "/" + r.file.name)
  {
    SecretsDirIsCanonical();
    NamesBelow(rootfs, SECRETS_TARGET_DIR, ["run", "secrets"], r.file.name);
  }

  lemma NamesBelow(rootfs: Path, dir: string, place: Path, t: string)
    requires IsAbsolute(dir) && Place(dir) == place && t != "" && !IsAbsolute(t) && AllNormal(Components(t))
    ensures rootfs + place + Names(Components(t)) == rootfs + Place(dir + "/" + t)
  {
    ResolvedBelow(dir, t);
    assert rootfs + place + Names(Components(t)) == rootfs + (place + Names(Components(t)));
  }

  /** A config is mounted, read-only, at its reference's target, from the very file
      that was planned for it. */
  lemma ConfigMountsShowTheirFiles(
    plan: DependencyPlan, secrets: seq<Reference>, configs: seq<Reference>, rootfs: Path, bundleDir: Path, total: nat, k: nat)
    requires IsPlan(plan, secrets, configs, rootfs, bundleDir, total) && k < |configs|
    ensures var n := k + if secrets == [] then 0 else 1;
            && n < |plan.mounts|
            && var mount, name := plan.mounts[n], configs[k].file.name;
            && mount.fstype == Nullfs && mount.options == ["ro"] && mount.source == Render(plan.configFiles[k].path)
            && mount.target == if IsAbsolute(name) then name else "/" + name
  {
    var first := if secrets == [] then 0 else 1;
    assert ConfigFault(configs, k).None?;
    assert plan.mounts[first + k] == plan.mounts[first..][k];
  }

  /** The secrets' tmpfs has room for all of them and 64 KiB more. */
  lemma SecretsFit(total: nat) returns (size: nat)
    ensures size >= total + 64 * 1024 && SecretsMount(total).options == ["size=" + Decimal.Digits(size), "mode=0755"]
  {
    size := SecretsTmpfsSize(total);
  }

  /** Every path of plain names is accepted as a target, relative for a secret,
      relative or absolute for a config. */
  lemma PlainTargetsAreAccepted(r: Reference, names: seq<string>)
    requires names != [] && forall n | n in names :: IsName(n)
    ensures SecretTarget(r.(file := r.file.(name := Join(names)))) == Ok(names)
    ensures ConfigTarget(r.(file := r.file.(name := Join(names)))) == Ok("/" + Join(names))
    ensures ConfigTarget(r.(file := r.file.(name := Render(names)))) == Ok(Render(names))
  {
    JoinedNames(names);
    assert Names(Normals(names)) == names;
    RenderRoundTrip(names);
    assert ([RootDir] + Normals(names))[1..] == Normals(names);
    SplitSlash(Join(names));
    BodySkips(Split(Join(names)));
    SplitJoin(names);
    BodyOfNames(names);
  }

  /** A secret's target is accepted exactly if it is a relative path without ".."
      that does not begin with "."; a config's, if it is any path without "..". */
  lemma TargetsExactly(r: Reference)
    ensures var t := r.file.name;
            && (SecretTarget(r).Ok? <==> t != "" && t[0] != '/' && ".." !in Split(t) && Split(t)[0] != ".")
            && (ConfigTarget(r).Ok? <==> t != "" && ".." !in Split(t))
            && (SecretTarget(r).Err? ==>
                  var reason := if t == "" then Empty else if t[0] == '/' then Absolute else Dots;
                  SecretTarget(r).error == BadFileTarget(Secret, r.name, t, reason))
            && (ConfigTarget(r).Err? ==>
                  var reason := if t == "" then Empty else Dots;
                  ConfigTarget(r).error == BadFileTarget(Config, r.name, t, reason))
  {
    var t := r.file.name;
    NamesButDots(Split(t));
    if t != "" {
      SplitSlash(t);
      NamesButDots([""] + Split(t));
      assert ([RootDir] + Body(Split(t)))[1..] == Body(Split(t));
      assert ([RootDir] + Body([""] + Split(t)))[1..] == Body([""] + Split(t));
      if t[0] != '/' && Split(t)[0] == "." {
        DotShows(t);
      }
    }
  }

  /** An owner that is given and is not a number. */
  predicate NoNumber(owner: string) { owner != "" && Decimal.ParseU32(owner).None? }

  /** A reference is at fault exactly if its target is not accepted, or is that of
      an earlier one, or an owner is no number; and the fault says which. */
  lemma FaultsExactly(refs: seq<Reference>, i: nat)
    requires i < |refs|
    ensures var r := refs[i];
            && (SecretFault(refs, i).None? <==>
                  && SecretTarget(r).Ok? && (forall j :: 0 <= j < i ==> SecretTarget(refs[j]) != SecretTarget(r))
                  && !NoNumber(r.file.uid) && !NoNumber(r.file.gid))
            && (ConfigFault(refs, i).None? <==>
                  && ConfigTarget(r).Ok? && (forall j :: 0 <= j < i ==> ConfigTarget(refs[j]) != ConfigTarget(r))
                  && !NoNumber(r.file.uid) && !NoNumber(r.file.gid))
            && FaultSays(SecretFault(refs, i), Secret, r, r.file.name)
            && FaultSays(ConfigFault(refs, i), Config, r, if IsAbsolute(r.file.name) then r.file.name else "/" + r.file.name)
  {
    TargetsExactly(refs[i]);
  }

  predicate FaultSays(fault: Option<PlanError>, kind: Kind, r: Reference, target: string)
  {
    match fault
    case None => true
    case Some(BadFileTarget(k, name, t, _)) => k == kind && name == r.name && t == r.file.name
    case Some(DuplicateDependencyTarget(k, t)) => k == kind && t == target
    case Some(NonNumericFileOwner(k, name, owner)) =>
      k == kind && name == r.name && owner == if NoNumber(r.file.uid) then r.file.uid else r.file.gid
    case _ => false
  }

  // ---- What an accepted plan is worth --------------------------------------

  /** No two secrets share a file. */
  lemma SecretPathsDistinct(files: seq<PayloadFile>, secrets: seq<Reference>, rootfs: Path, i: nat, j: nat)
    requires |files| == |secrets| && SecretFilesAre(files, secrets, rootfs) && i < j < |secrets|
    ensures files[i].path != files[j].path
  {
    assert SecretFault(secrets, i).None? && SecretFault(secrets, j).None?;
    var dir := rootfs + ["run", "secrets"];
    var a, b := SecretTarget(secrets[i]).value, SecretTarget(secrets[j]).value;
    assert a != b;
    assert (dir + a)[|dir|..] == a && (dir + b)[|dir|..] == b;
  }

  /** Every secret's file lies strictly below the secrets directory of the
      container's own root, one plain name per level. */
  lemma SecretsStayInside(r: Reference, rootfs: Path)
    requires SecretTarget(r).Ok? && OwnerFault(Secret, r).None?
    ensures var dir := rootfs + ["run", "secrets"];
            var path := SecretFile(r, rootfs).path;
            dir < path && forall n | n in path[|dir|..] :: IsName(n)
  {
    var dir := rootfs + ["run", "secrets"];
    var cs := Components(r.file.name);
    ComponentsAreNames(r.file.name);
    RelativeHasAName(r.file.name);
    assert SecretFile(r, rootfs).path[|dir|..] == Names(cs);
    forall n | n in Names(cs) ensures IsName(n) {
      var k :| 0 <= k < |cs| && cs[k].name == n;
      assert cs[k] in cs;
    }
  }

  /** No two configs share a file: the index names it. */
  lemma ConfigPathsDistinct(files: seq<PayloadFile>, configs: seq<Reference>, bundleDir: Path, i: nat, j: nat)
    requires |files| == |configs| && ConfigFilesAre(files, configs, bundleDir) && i < j < |configs|
    ensures files[i].path != files[j].path
  {
    Decimal.DigitsInjective(i, j);
    assert files[i].path[|bundleDir| + 1] == Decimal.Digits(i);
    assert files[j].path[|bundleDir| + 1] == Decimal.Digits(j);
  }

  /** Neither directory lies inside the other. */
  predicate Apart(a: Path, b: Path) { !(a <= b) && !(b <= a) }

  lemma KindsApart(s: PayloadFile, c: PayloadFile, rootfs: Path, bundleDir: Path)
    requires Apart(rootfs, bundleDir) && rootfs <= s.path && bundleDir <= c.path
    ensures s.path != c.path
  {
    if s.path == c.path {
      PrefixesCompare(rootfs, bundleDir, s.path);
    }
  }

  lemma PrefixesCompare(a: Path, b: Path, p: Path)
    requires a <= p && b <= p
    ensures a <= b || b <= a
  {
    assert a == p[..|a|] && b == p[..|b|];
  }

  // ---- The whole bundle ----------------------------------------------------

  ghost predicate TargetsDistinct(mounts: seq<BundleMount>)
  {
    forall i, j :: 0 <= i < j < |mounts| ==> mounts[i].target != mounts[j].target
  }

  /** Dependency mount `n` claims a target already taken. */
  ghost predicate Clash(mounts: seq<Mount>, deps: seq<BundleMount>, n: nat)
    requires n < |deps|
  {
    || (exists i :: 0 <= i < |mounts| && mounts[i].target == deps[n].target)
    || (exists k :: 0 <= k < n && deps[k].target == deps[n].target)
  }

  lemma PlannedTargets(planned: seq<BundleMount>, mounts: seq<Mount>, volumes: map<string, string>)
    requires |planned| == |mounts| && PlannedAre(planned, mounts, volumes)
    ensures forall i :: 0 <= i < |mounts| ==> planned[i].target == mounts[i].target
    ensures TargetsDistinct(planned)
  {
    forall i, j | 0 <= i < j < |planned| ensures planned[i].target != planned[j].target {
      assert MountFault(mounts, volumes, i).None? && MountFault(mounts, volumes, j).None?;
    }
  }

  /** The mount half of `plan_bundle`: the caller's mounts, then the
      dependencies', unless two share a target. */
  method PlanBundleMounts(mounts: seq<Mount>, volumes: map<string, string>, deps: seq<BundleMount>)
    returns (r: Result<seq<BundleMount>>)
    ensures r.Ok? <==> && (forall i :: 0 <= i < |mounts| ==> MountFault(mounts, volumes, i).None?)
                       && (forall n :: 0 <= n < |deps| ==> !Clash(mounts, deps, n))
    ensures r.Ok? ==> && |r.value| == |mounts| + |deps| && r.value[|mounts|..] == deps
                      && PlannedAre(r.value[..|mounts|], mounts, volumes)
                      && TargetsDistinct(r.value)
                      && (CanonicalCalls(mounts, deps) ==> PlacesDistinct(r.value))
    ensures r.Err? && (forall i :: 0 <= i < |mounts| ==> MountFault(mounts, volumes, i).None?) ==>
              exists n :: && 0 <= n < |deps| && Clash(mounts, deps, n) && r.error == DuplicateMountTarget(deps[n].target)
                          && forall k :: 0 <= k < n ==> !Clash(mounts, deps, k)
  {
    var planned := PlanMounts(mounts, volumes);
    if planned.Err? {
      return Err(planned.error);
    }
    PlannedTargets(planned.value, mounts, volumes);
    var all := planned.value;
    for n := 0 to |deps|
      invariant all == planned.value + deps[..n] && TargetsDistinct(all)
      invariant forall k :: 0 <= k < n ==> !Clash(mounts, deps, k)
    {
      ClashInAll(planned.value, mounts, deps, n);
      if exists i :: 0 <= i < |all| && all[i].target == deps[n].target {
        return Err(DuplicateMountTarget(deps[n].target));
      }
      all := all + [deps[n]];
    }
    assert all[|mounts|..] == deps && all[..|mounts|] == planned.value;
    PlacesFollow(planned.value, mounts, deps);
    r := Ok(all);
  }

  /** The caller's and the dependencies' targets are spelled canonically. */
  ghost predicate CanonicalCalls(mounts: seq<Mount>, deps: seq<BundleMount>)
  {
    (forall i :: 0 <= i < |mounts| ==> Canonical(mounts[i].target))
    && (forall n :: 0 <= n < |deps| ==> Canonical(deps[n].target))
  }

  lemma PlacesFollow(planned: seq<BundleMount>, mounts: seq<Mount>, deps: seq<BundleMount>)
    requires |planned| == |mounts| && TargetsDistinct(planned + deps)
    requires forall i :: 0 <= i < |mounts| ==> planned[i].target == mounts[i].target
    ensures CanonicalCalls(mounts, deps) ==> PlacesDistinct(planned + deps)
  {
    var all := planned + deps;
    if CanonicalCalls(mounts, deps) {
      forall i | 0 <= i < |all| ensures Canonical(all[i].target) {
        if i < |planned| {
          assert all[i].target == mounts[i].target;
        } else {
          assert all[i] == deps[i - |planned|];
        }
      }
    }
  }

  lemma ClashInAll(planned: seq<BundleMount>, mounts: seq<Mount>, deps: seq<BundleMount>, n: nat)
    requires |planned| == |mounts| && n < |deps|
    requires forall i :: 0 <= i < |mounts| ==> planned[i].target == mounts[i].target
    ensures var all := planned + deps[..n];
            Clash(mounts, deps, n) <==> exists i :: 0 <= i < |all| && all[i].target == deps[n].target
  {
    var all := planned + deps[..n];
    if i :| 0 <= i < |mounts| && mounts[i].target == deps[n].target {
      assert all[i].target == deps[n].target;
    }
    if k :| 0 <= k < n && deps[k].target == deps[n].target {
      assert all[|planned| + k].target == deps[n].target;
    }
    if i :| 0 <= i < |all| && all[i].target == deps[n].target {
      if i < |planned| {
        assert mounts[i].target == deps[n].target;
      } else {
        assert deps[i - |planned|].target == deps[n].target;
      }
    }
  }

  ghost predicate AllAbsolute(mounts: seq<BundleMount>)
  {
    forall i :: 0 <= i < |mounts| ==> IsAbsolute(mounts[i].target)
  }

  /** Every mount of an accepted bundle has an absolute target: the caller's, the
      secrets tmpfs and the configs'. */
  lemma TargetsAreAbsolute(
    all: seq<BundleMount>, mounts: seq<Mount>, volumes: map<string, string>, plan: DependencyPlan,
    secrets: seq<Reference>, configs: seq<Reference>, rootfs: Path, bundleDir: Path, total: nat)
    requires IsPlan(plan, secrets, configs, rootfs, bundleDir, total)
    requires |all| == |mounts| + |plan.mounts| && all[|mounts|..] == plan.mounts
    requires PlannedAre(all[..|mounts|], mounts, volumes)
    ensures AllAbsolute(all)
  {
    DependencyTargets(plan, secrets, configs, rootfs, bundleDir, total);
    forall i | 0 <= i < |all| ensures IsAbsolute(all[i].target) {
      if i < |mounts| {
        assert MountFault(mounts, volumes, i).None? && all[..|mounts|][i] == all[i];
      } else {
        assert all[i] == plan.mounts[i - |mounts|];
      }
    }
  }

  /** The dependency mounts, by target: one secrets directory at most, then each
      config's own target. */
  lemma DependencyTargets(
    plan: DependencyPlan, secrets: seq<Reference>, configs: seq<Reference>, rootfs: Path, bundleDir: Path, total: nat)
    requires IsPlan(plan, secrets, configs, rootfs, bundleDir, total)
    ensures AllAbsolute(plan.mounts)
  {
    var first := if secrets == [] then 0 else 1;
    forall i | 0 <= i < |plan.mounts| ensures IsAbsolute(plan.mounts[i].target) {
      if i < first {
        assert plan.mounts[i] == plan.mounts[..first][i] == SecretsMount(total);
      } else {
        var k := i - first;
        assert plan.mounts[i] == plan.mounts[first..][k];
        assert ConfigFault(configs, k).None?;
      }
    }
  }

  // ---- Targets are compared as spelled -------------------------------------

  /** The place in the jail a target names, however it is spelled. */
  function Place(target: string): seq<string> { Resolved(Components(target)) }

  /** A target in its shortest spelling. */
  ghost predicate Canonical(target: string) { target == Spelled(Place(target)) }

  /** The path that spells out its names is the canonical one. */
  lemma RenderedTargetsAreCanonical(names: seq<string>)
    requires names != [] && forall n | n in names :: IsName(n)
    ensures Canonical(Render(names)) && Place(Render(names)) == names
  {
    RenderRoundTrip(names);
    ResolvedNormals(names);
  }

  lemma SecretsDirIsCanonical()
    ensures Canonical(SECRETS_TARGET_DIR) && Place(SECRETS_TARGET_DIR) == ["run", "secrets"]
  {
    var names := ["run", "secrets"];
    RenderedTargetsAreCanonical(names);
    assert names[1..] == ["secrets"] && names[1..][1..] == [];
    assert Render(names) == SECRETS_TARGET_DIR;
  }

  ghost predicate PlacesDistinct(mounts: seq<BundleMount>)
  {
    forall i, j :: 0 <= i < j < |mounts| ==> Place(mounts[i].target) != Place(mounts[j].target)
  }

  /** Caller mounts that are planned without a fault beside these dependencies. */
  ghost predicate Admitted(mounts: seq<Mount>, volumes: map<string, string>, deps: seq<BundleMount>)
  {
    && (forall i :: 0 <= i < |mounts| ==> MountFault(mounts, volumes, i).None?)
    && (forall n :: 0 <= n < |deps| ==> !Clash(mounts, deps, n))
  }

  /** The target is spelled like that among the caller's mounts or dependencies. */
  predicate Taken(mounts: seq<Mount>, deps: seq<BundleMount>, target: string)
  {
    || (exists i :: 0 <= i < |mounts| && mounts[i].target == target)
    || (exists n :: 0 <= n < |deps| && deps[n].target == target)
  }

  /** If the caller's targets and the configs' are spelled canonically, an accepted
      bundle mounts every place once, /run/secrets included. */
  lemma CanonicalBundlesMountEachPlaceOnce(
    all: seq<BundleMount>, mounts: seq<Mount>, volumes: map<string, string>, plan: DependencyPlan,
    secrets: seq<Reference>, configs: seq<Reference>, rootfs: Path, bundleDir: Path, total: nat)
    requires IsPlan(plan, secrets, configs, rootfs, bundleDir, total)
    requires |all| == |mounts| + |plan.mounts| && all[|mounts|..] == plan.mounts
    requires PlannedAre(all[..|mounts|], mounts, volumes) && TargetsDistinct(all)
    requires forall i :: 0 <= i < |mounts| ==> Canonical(mounts[i].target)
    requires forall k :: 0 <= k < |configs| ==> ConfigTarget(configs[k]).Ok? && Canonical(ConfigTarget(configs[k]).value)
    ensures PlacesDistinct(all)
  {
    forall i | 0 <= i < |all| ensures Canonical(all[i].target) {
      if i < |mounts| {
        assert all[..|mounts|][i] == all[i] && MountFault(mounts, volumes, i).None?;
      } else {
        assert all[i] == plan.mounts[i - |mounts|];
        DependencyTargetIsCanonical(plan, secrets, configs, rootfs, bundleDir, total, i - |mounts|);
      }
    }
  }

  lemma DependencyTargetIsCanonical(
    plan: DependencyPlan, secrets: seq<Reference>, configs: seq<Reference>, rootfs: Path, bundleDir: Path, total: nat, i: nat)
    requires IsPlan(plan, secrets, configs, rootfs, bundleDir, total) && i < |plan.mounts|
    requires forall k :: 0 <= k < |configs| ==> ConfigTarget(configs[k]).Ok? && Canonical(ConfigTarget(configs[k]).value)
    ensures Canonical(plan.mounts[i].target)
  {
    var first := if secrets == [] then 0 else 1;
    if i < first {
      assert plan.mounts[i] == plan.mounts[..first][i] == SecretsMount(total);
      SecretsDirIsCanonical();
    } else {
      var k := i - first;
      assert plan.mounts[i] == plan.mounts[first..][k];
      assert ConfigFault(configs, k).None?;
      assert Canonical(ConfigTarget(configs[k]).value);
    }
  }

  /** Any accepted caller mount whose target is not spelled canonically shares its
      place with another mount: one that is there already, under the canonical
      spelling, or one more at that spelling, which is accepted as well. */
  lemma OtherSpellingsMountAPlaceTwice(
    mounts: seq<Mount>, volumes: map<string, string>, deps: seq<BundleMount>, k: nat, readOnly: bool)
    requires Admitted(mounts, volumes, deps) && k < |mounts| && !Canonical(mounts[k].target)
    ensures var target := Spelled(Place(mounts[k].target));
            && target != mounts[k].target && Place(target) == Place(mounts[k].target)
            && (Taken(mounts, deps, target) || Admitted(mounts + [Mount(Tmpfs, None, target, readOnly)], volumes, deps))
  {
    var target := Spelled(Place(mounts[k].target));
    SpellingLeadsThere(mounts[k].target);
    if !Taken(mounts, deps, target) {
      OneMoreMount(mounts, volumes, Mount(Tmpfs, None, target, readOnly));
      OneMoreClash(mounts, deps, Mount(Tmpfs, None, target, readOnly));
    }
  }

  /** So a caller may mount over the secrets of any task that has some: whatever
      caller mounts are accepted with its dependencies are still accepted with one
      more at the secrets directory, under any other spelling of it. */
  lemma CallerMountMayHideTheSecrets(
    mounts: seq<Mount>, volumes: map<string, string>, deps: seq<BundleMount>, total: nat, target: string, readOnly: bool)
    requires deps != [] && deps[0] == SecretsMount(total) && Admitted(mounts, volumes, deps)
    requires IsAbsolute(target) && Place(target) == Place(SECRETS_TARGET_DIR) && !Taken(mounts, deps, target)
    ensures var more := mounts + [Mount(Tmpfs, None, target, readOnly)];
            Admitted(more, volumes, deps) && Place(more[|mounts|].target) == Place(deps[0].target)
  {
    OneMoreMount(mounts, volumes, Mount(Tmpfs, None, target, readOnly));
    OneMoreClash(mounts, deps, Mount(Tmpfs, None, target, readOnly));
  }

  /** Every target has such spellings: with a trailing slash, with a doubled one,
      and with a step down and up again. */
  lemma EveryTargetHasOtherSpellings(target: string, name: string)
    requires IsAbsolute(target) && IsName(name)
    ensures forall t | t in {target + "/", "/" + target, "/" + name + "/.." + target} ::
              IsAbsolute(t) && t != target && Place(t) == Place(target)
  {
    TrailingSlash(target);
    LeadingSlash(target);
    StepUp(name, target);
    assert |target + "/"| > |target| && |"/" + target| > |target| && |"/" + name + "/.." + target| > |target|;
  }

  lemma OneMoreMount(mounts: seq<Mount>, volumes: map<string, string>, m: Mount)
    requires forall i :: 0 <= i < |mounts| ==> MountFault(mounts, volumes, i).None?
    requires m.kind.Tmpfs? && IsAbsolute(m.target) && forall i :: 0 <= i < |mounts| ==> mounts[i].target != m.target
    ensures forall i :: 0 <= i <= |mounts| ==> MountFault(mounts + [m], volumes, i).None?
  {
    var more := mounts + [m];
    forall i | 0 <= i <= |mounts| ensures MountFault(more, volumes, i).None? {
      assert forall j :: 0 <= j < |mounts| ==> more[j] == mounts[j];
      if i < |mounts| {
        assert MountFault(mounts, volumes, i).None?;
      }
    }
  }

  lemma OneMoreClash(mounts: seq<Mount>, deps: seq<BundleMount>, m: Mount)
    requires forall n :: 0 <= n < |deps| ==> !Clash(mounts, deps, n) && deps[n].target != m.target
    ensures forall n :: 0 <= n < |deps| ==> !Clash(mounts + [m], deps, n)
  {
    forall n | 0 <= n < |deps| ensures !Clash(mounts + [m], deps, n) {
      assert !Clash(mounts, deps, n);
    }
  }

  /** Another spelling of a config's target. */
  function Respelled(r: Reference): Reference
  {
    r.(file := r.file.(name := "/" + (if IsAbsolute(r.file.name) then r.file.name else "/" + r.file.name)))
  }

  /** Without that, one place may be planned twice: duplicates are sought among
      spellings, and every config that is accepted alone is accepted beside a
      second config with the same place respelled. */
  lemma SpellingHidesADuplicate(r: Reference)
    requires ConfigsFine([r], 1)
    ensures var twin := Respelled(r);
            && ConfigsFine([r, twin], 2)
            && ConfigTarget(r).Ok? && ConfigTarget(twin).Ok? && Place(ConfigTarget(twin).value) == Place(ConfigTarget(r).value)
  {
    assert ConfigFault([r], 0).None?;
    var t := ConfigTarget(r).value;
    var twin := Respelled(r);
    LeadingSlash(t);
    assert |"/" + t| == |t| + 1;
    assert ConfigTarget(twin) == Ok("/" + t);
    assert ConfigFault([r, twin], 0).None? && ConfigFault([r, twin], 1).None?;
  }
}
