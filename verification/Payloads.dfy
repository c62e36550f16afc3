/** From references to files: the plan of `bundle.rs`, zipped with the payloads
    as `materialize.rs` does, is a sound configuration of the protocol, so a
    started container sees each secret and config at its planned path. */
module Payloads {
  import opened TaskStates
  import opened ByteStrings
  import B = Bundle
  import Paths
  import C = Controller
  import P = Protocol
  import W = PayloadWriters
  import T = ProtocolTheorems
  import H = Health

  /** The objects of the dependency store, by id. */
  type Objects = map<string, Bytes>

  ghost predicate Resolved(refs: seq<B.Reference>, objects: Objects)
  {
    forall i :: 0 <= i < |refs| ==> refs[i].id in objects
  }

  /** `write_payloads`: file `i` gets payload `i`. */
  function Zip(files: seq<B.PayloadFile>, payloads: seq<Bytes>): seq<C.Write>
  {
    if files == [] || payloads == [] then []
    else [C.Write(files[0].path, payloads[0])] + Zip(files[1..], payloads[1..])
  }

  lemma {:induction false} ZipAt(files: seq<B.PayloadFile>, payloads: seq<Bytes>)
    ensures var z := Zip(files, payloads);
            && |z| == (if |files| < |payloads| then |files| else |payloads|)
            && forall i :: 0 <= i < |z| ==> z[i] == C.Write(files[i].path, payloads[i])
    decreases |files|
  {
    if files != [] && payloads != [] {
      ZipAt(files[1..], payloads[1..]);
    }
  }

  /** How a batch ends early: at file `at`, which may be left with anything. */
  datatype Fault = NoFault | WriteFails(at: nat, debris: Option<Bytes>)

  class Store {
    var files: map<B.Path, Bytes>

    /** `write_payloads`: the first error stops the batch. */
    method WritePayloads(plan: seq<B.PayloadFile>, payloads: seq<Bytes>, fault: Fault) returns (ok: bool)
      modifies this
      ensures var z := Zip(plan, payloads);
              && (ok <==> fault.NoFault? || fault.at >= |z|)
              && (ok ==> files == W.Filled(old(files), z))
              && (!ok ==> var prior := W.Filled(old(files), z[..fault.at]);
                          files == if fault.debris.Some? then prior[z[fault.at].path := fault.debris.value] else prior)
    {
      var i := 0;
      ghost var z := Zip(plan, payloads);
      ZipAt(plan, payloads);
      while i < |plan| && i < |payloads|
        invariant 0 <= i <= |z| && (fault.WriteFails? ==> i <= fault.at)
        invariant files == W.Filled(old(files), z[..i])
      {
        if fault.WriteFails? && fault.at == i {
          if fault.debris.Some? {
            files := files[plan[i].path := fault.debris.value];
          }
          return false;
        }
        assert z[..i + 1][..i] == z[..i];
        files := files[plan[i].path := payloads[i]];
        i := i + 1;
      }
      assert z[..|z|] == z;
      ok := true;
    }
  }

  ghost predicate Distinct(files: seq<B.PayloadFile>)
  {
    forall i, j :: 0 <= i < j < |files| ==> files[i].path != files[j].path
  }

  lemma ZipIsAFunction(files: seq<B.PayloadFile>, payloads: seq<Bytes>)
    requires |files| == |payloads| && Distinct(files)
    ensures var z := Zip(files, payloads); forall v, w | v in z && w in z :: v.path == w.path ==> v == w
  {
    ZipAt(files, payloads);
    var z := Zip(files, payloads);
    forall v, w | v in z && w in z && v.path == w.path ensures v == w {
      var i :| 0 <= i < |z| && z[i] == v;
      var j :| 0 <= j < |z| && z[j] == w;
    }
  }

  lemma ZipsApart(a: seq<B.PayloadFile>, p: seq<Bytes>, b: seq<B.PayloadFile>, q: seq<Bytes>)
    requires |a| == |p| && |b| == |q|
    requires forall i, j :: 0 <= i < |a| && 0 <= j < |b| ==> a[i].path != b[j].path
    ensures forall v, w | v in Zip(a, p) && w in Zip(b, q) :: v.path != w.path
  {
    ZipAt(a, p);
    ZipAt(b, q);
    forall v, w | v in Zip(a, p) && w in Zip(b, q) ensures v.path != w.path {
      var i :| 0 <= i < |a| && Zip(a, p)[i] == v;
      var j :| 0 <= j < |b| && Zip(b, q)[j] == w;
    }
  }

  /** The payloads in the order of the references (`resolve_dependencies`). */
  function Fetched(refs: seq<B.Reference>, objects: Objects): seq<Bytes>
    requires Resolved(refs, objects)
  {
    seq(|refs|, i requires 0 <= i < |refs| => objects[refs[i].id])
  }

  function Configured(
    plan: B.DependencyPlan, secrets: seq<B.Reference>, configs: seq<B.Reference>, objects: Objects,
    probe: Option<H.ProbeSettings>, racct: bool): C.Config
    requires Resolved(secrets, objects) && Resolved(configs, objects)
  {
    C.Config(Zip(plan.configFiles, Fetched(configs, objects)), Zip(plan.secretFiles, Fetched(secrets, objects)), probe, racct)
  }

  ghost predicate Sound(
    plan: B.DependencyPlan, secrets: seq<B.Reference>, configs: seq<B.Reference>, rootfs: B.Path, bundleDir: B.Path,
    total: nat, objects: Objects, probe: Option<H.ProbeSettings>)
  {
    && B.IsPlan(plan, secrets, configs, rootfs, bundleDir, total) && B.Apart(rootfs, bundleDir)
    && Resolved(secrets, objects) && Resolved(configs, objects)
    && (probe.Some? ==> probe.value.Valid())
  }

  /** Planned files never get in each other's way. */
  lemma PlansAreValid(
    plan: B.DependencyPlan, secrets: seq<B.Reference>, configs: seq<B.Reference>, rootfs: B.Path, bundleDir: B.Path,
    total: nat, objects: Objects, probe: Option<H.ProbeSettings>, racct: bool)
    requires Sound(plan, secrets, configs, rootfs, bundleDir, total, objects, probe)
    ensures Configured(plan, secrets, configs, objects, probe, racct).Valid()
  {
    forall i, j | 0 <= i < j < |configs| ensures plan.configFiles[i].path != plan.configFiles[j].path {
      B.ConfigPathsDistinct(plan.configFiles, configs, bundleDir, i, j);
    }
    forall i, j | 0 <= i < j < |secrets| ensures plan.secretFiles[i].path != plan.secretFiles[j].path {
      B.SecretPathsDistinct(plan.secretFiles, secrets, rootfs, i, j);
    }
    ZipIsAFunction(plan.configFiles, Fetched(configs, objects));
    ZipIsAFunction(plan.secretFiles, Fetched(secrets, objects));
    forall i, j | 0 <= i < |configs| && 0 <= j < |secrets|
      ensures plan.configFiles[i].path != plan.secretFiles[j].path
    {
      B.KindsApart(plan.secretFiles[j], plan.configFiles[i], rootfs, bundleDir);
    }
    ZipsApart(plan.configFiles, Fetched(configs, objects), plan.secretFiles, Fetched(secrets, objects));
  }

  /** The file planned for one reference is there, and holds these bytes unless a
      writer left behind by a dropped step is in the middle of it or was cut short
      there. */
  ghost predicate Delivered(
    files: map<B.Path, Bytes>, before: C.Resources, leftovers: bool, file: B.PayloadFile, data: Bytes)
  {
    && file.path in files
    && (files[file.path] == data || (leftovers && T.HalfWritten(before, C.Write(file.path, data))))
  }

  /** What a started container finds where its references say: at a secret's path
      below /run/secrets its own file, and behind a config's target, mounted
      read-only, the file planned for it. */
  ghost predicate Seen(
    files: map<B.Path, Bytes>, before: C.Resources, leftovers: bool, plan: B.DependencyPlan, secrets: seq<B.Reference>,
    configs: seq<B.Reference>, rootfs: B.Path, objects: Objects)
    requires |plan.secretFiles| == |secrets| && |plan.configFiles| == |configs|
    requires Resolved(secrets, objects) && Resolved(configs, objects)
  {
    && (forall i :: 0 <= i < |secrets| ==>
          && plan.secretFiles[i].path == rootfs + B.Place(B.SECRETS_TARGET_DIR + "/" + secrets[i].file.name)
          && Delivered(files, before, leftovers, plan.secretFiles[i], objects[secrets[i].id]))
    && (forall k :: 0 <= k < |configs| ==>
          && MountsConfig(plan, k + (if secrets == [] then 0 else 1), k, configs[k].file.name)
          && Delivered(files, before, leftovers, plan.configFiles[k], objects[configs[k].id]))
  }

  /** Mount `n` of the plan shows config file `k` at this target. */
  predicate MountsConfig(plan: B.DependencyPlan, n: nat, k: nat, name: string)
    requires k < |plan.configFiles|
  {
    && n < |plan.mounts| && plan.mounts[n].fstype == B.Nullfs && plan.mounts[n].options == ["ro"]
    && plan.mounts[n].source == Paths.Render(plan.configFiles[k].path)
    && plan.mounts[n].target == if Paths.IsAbsolute(name) then name else "/" + name
  }

  /** Over every run: when `ocijail start` takes effect in time on a container whose
      rootfs exists and whose bundle was not deleted under it, each reference leads to
      the file planned for it, and that is there, with the bytes of the object that
      the reference names, unless a leftover writer got in the way. */
  lemma StartedContainersSeeTheirObjects(
    plan: B.DependencyPlan, secrets: seq<B.Reference>, configs: seq<B.Reference>, rootfs: B.Path, bundleDir: B.Path,
    total: nat, objects: Objects, probe: Option<H.ProbeSettings>, racct: bool, events: seq<P.Event>, e: P.Event)
    requires Sound(plan, secrets, configs, rootfs, bundleDir, total, objects, probe)
    requires var cfg := Configured(plan, secrets, configs, objects, probe, racct);
             && P.Runs(cfg, P.Fresh, events) && P.Enabled(P.After(cfg, P.Fresh, events), e)
             && var c := P.After(cfg, P.Fresh, events);
             && P.Next(cfg, c, e).res.log == c.res.log + [C.DidStart] && T.Timely(c, e)
    ensures var cfg := Configured(plan, secrets, configs, objects, probe, racct);
            var c := P.After(cfg, P.Fresh, events);
            Seen(P.Next(cfg, c, e).res.files, c.res, c.life.leftovers, plan, secrets, configs, rootfs, objects)
  {
    var cfg := Configured(plan, secrets, configs, objects, probe, racct);
    var c := P.After(cfg, P.Fresh, events);
    PlansAreValid(plan, secrets, configs, rootfs, bundleDir, total, objects, probe, racct);
    T.EveryRunIsSafe(cfg, events);
    T.PayloadsBeforeStart(cfg, c, e);
    PlannedAreSeen(plan, secrets, configs, rootfs, bundleDir, total, objects, P.Next(cfg, c, e).res.files, c.res, c.life.leftovers);
  }

  lemma PlannedAreSeen(
    plan: B.DependencyPlan, secrets: seq<B.Reference>, configs: seq<B.Reference>, rootfs: B.Path, bundleDir: B.Path,
    total: nat, objects: Objects, files: map<B.Path, Bytes>, before: C.Resources, leftovers: bool)
    requires B.IsPlan(plan, secrets, configs, rootfs, bundleDir, total)
    requires Resolved(secrets, objects) && Resolved(configs, objects)
    requires forall w | w in Zip(plan.configFiles, Fetched(configs, objects)) || w in Zip(plan.secretFiles, Fetched(secrets, objects)) ::
               w.path in files && (W.Holds(files, w) || (T.HalfWritten(before, w) && leftovers))
    ensures Seen(files, before, leftovers, plan, secrets, configs, rootfs, objects)
  {
    DeliveredByReference(files, before, leftovers, plan.configFiles, Fetched(configs, objects));
    DeliveredByReference(files, before, leftovers, plan.secretFiles, Fetched(secrets, objects));
    ReferencesLeadThere(plan, secrets, configs, rootfs, bundleDir, total);
  }

  lemma ReferencesLeadThere(
    plan: B.DependencyPlan, secrets: seq<B.Reference>, configs: seq<B.Reference>, rootfs: B.Path, bundleDir: B.Path, total: nat)
    requires B.IsPlan(plan, secrets, configs, rootfs, bundleDir, total)
    ensures forall i :: 0 <= i < |secrets| ==>
              plan.secretFiles[i].path == rootfs + B.Place(B.SECRETS_TARGET_DIR + "/" + secrets[i].file.name)
    ensures forall k :: 0 <= k < |configs| ==>
              MountsConfig(plan, k + (if secrets == [] then 0 else 1), k, configs[k].file.name)
  {
    forall i | 0 <= i < |secrets|
      ensures plan.secretFiles[i].path == rootfs + B.Place(B.SECRETS_TARGET_DIR + "/" + secrets[i].file.name)
    {
      B.SecretsAreWhereTheySay(plan, secrets, configs, rootfs, bundleDir, total, i);
    }
    forall k | 0 <= k < |configs|
      ensures MountsConfig(plan, k + (if secrets == [] then 0 else 1), k, configs[k].file.name)
    {
      B.ConfigMountsShowTheirFiles(plan, secrets, configs, rootfs, bundleDir, total, k);
    }
  }

  lemma DeliveredByReference(
    files: map<B.Path, Bytes>, before: C.Resources, leftovers: bool, plan: seq<B.PayloadFile>, payloads: seq<Bytes>)
    requires |plan| == |payloads|
    requires forall w | w in Zip(plan, payloads) ::
               w.path in files && (W.Holds(files, w) || (T.HalfWritten(before, w) && leftovers))
    ensures forall i :: 0 <= i < |plan| ==> Delivered(files, before, leftovers, plan[i], payloads[i])
  {
    ZipAt(plan, payloads);
    forall i | 0 <= i < |plan| ensures Delivered(files, before, leftovers, plan[i], payloads[i]) {
      assert Zip(plan, payloads)[i] in Zip(plan, payloads);
    }
  }
}
