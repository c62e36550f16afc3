/** A container's environment (`bundle.rs`): the image's entries, overridden in
    place by the spec's, with a default PATH. */
module Environment {
  import opened TaskStates

  const PATH_DIRS := "/usr/local/sbin:/usr/local/bin:/usr/sbin:/usr/bin:/sbin:/bin"
  const DEFAULT_PATH := "PATH" + "=" + PATH_DIRS

  /** `env_key`: the text before the first '=', or the whole entry. */
  function Key(entry: string): (key: string)
    ensures '=' !in key
    ensures entry == key || (key + "=") <= entry
  {
    if entry == "" || entry[0] == '=' then "" else [entry[0]] + Key(entry[1..])
  }

  /** The first position holding key `k`, or the length. */
  function Find(env: seq<string>, k: string): (i: nat)
    ensures i <= |env|
    ensures i < |env| ==> Key(env[i]) == k
    ensures forall j :: 0 <= j < i ==> Key(env[j]) != k
  {
    if env == [] || Key(env[0]) == k then 0 else 1 + Find(env[1..], k)
  }

  /** `environ` lookup: the first entry with the key. */
  function Lookup(env: seq<string>, k: string): Option<string>
  {
    var i := Find(env, k);
    if i < |env| then Some(env[i]) else None
  }

  function Put(env: seq<string>, entry: string): seq<string>
  {
    var i := Find(env, Key(entry));
    if i < |env| then env[i := entry] else env + [entry]
  }

  function Overridden(image: seq<string>, spec: seq<string>): seq<string>
  {
    if spec == [] then image else Put(Overridden(image, spec[..|spec| - 1]), spec[|spec| - 1])
  }

  function WithPath(env: seq<string>): seq<string>
  {
    if Find(env, "PATH") < |env| then env else env + [DEFAULT_PATH]
  }

  /** `iter().find` by key. */
  method Slot(env: seq<string>, key: string) returns (slot: nat)
    ensures slot == Find(env, key)
  {
    slot := 0;
    while slot < |env| && Key(env[slot]) != key
      invariant slot <= |env|
      invariant forall j :: 0 <= j < slot ==> Key(env[j]) != key
    {
      slot := slot + 1;
    }
    FoundAt(env, key, slot);
  }

  /** `merge_env`. */
  method MergeEnv(spec: seq<string>, image: seq<string>) returns (merged: seq<string>)
    ensures merged == WithPath(Overridden(image, spec))
    ensures |image| <= |merged| && SameKeys(image, merged)
  {
    MergeOrder(image, spec);
    merged := image;
    for n := 0 to |spec|
      invariant merged == Overridden(image, spec[..n])
    {
      assert spec[..n + 1][..n] == spec[..n];
      var slot := Slot(merged, Key(spec[n]));
      if slot < |merged| {
        merged := merged[slot := spec[n]];
      } else {
        merged := merged + [spec[n]];
      }
    }
    assert spec[..|spec|] == spec;
    var path := Slot(merged, "PATH");
    if path == |merged| {
      merged := merged + [DEFAULT_PATH];
    }
  }

  lemma FoundAt(env: seq<string>, k: string, i: nat)
    requires i <= |env| && (forall j :: 0 <= j < i ==> Key(env[j]) != k)
    requires i < |env| ==> Key(env[i]) == k
    ensures Find(env, k) == i
  {
  }

  // ---- What it means -------------------------------------------------------

  /** The last entry with key `k`. */
  function Last(spec: seq<string>, k: string): Option<string>
  {
    if spec == [] then None
    else if Key(spec[|spec| - 1]) == k then Some(spec[|spec| - 1])
    else Last(spec[..|spec| - 1], k)
  }

  function Effective(spec: seq<string>, image: seq<string>, k: string): Option<string>
  {
    if Last(spec, k).Some? then Last(spec, k)
    else if Lookup(image, k).Some? then Lookup(image, k)
    else if k == "PATH" then Some(DEFAULT_PATH)
    else None
  }

  /** What one entry does to every key. */
  lemma PutLooksUp(env: seq<string>, entry: string, k: string)
    ensures Lookup(Put(env, entry), k) == if k == Key(entry) then Some(entry) else Lookup(env, k)
  {
    var put := Put(env, entry);
    if k == Key(entry) {
      FoundAt(put, k, Find(env, k));
    } else {
      var i := Find(env, k);
      if i < |env| || Find(env, Key(entry)) < |env| {
        FoundAt(put, k, i);
      } else {
        FoundAt(put, k, |put|);
      }
    }
  }

  lemma {:induction false} OverriddenLooksUp(image: seq<string>, spec: seq<string>, k: string)
    ensures Lookup(Overridden(image, spec), k)
         == if Last(spec, k).Some? then Last(spec, k) else Lookup(image, k)
    decreases |spec|
  {
    if spec != [] {
      var n := |spec| - 1;
      OverriddenLooksUp(image, spec[..n], k);
      PutLooksUp(Overridden(image, spec[..n]), spec[n], k);
    }
  }

  /** Every key resolves to the spec's last entry for it, else the image's first,
      else the default PATH, else nothing. */
  lemma EffectiveValue(spec: seq<string>, image: seq<string>, k: string)
    ensures Lookup(WithPath(Overridden(image, spec)), k) == Effective(spec, image, k)
  {
    var env := Overridden(image, spec);
    OverriddenLooksUp(image, spec, k);
    if Find(env, "PATH") == |env| {
      KeyOfEntry("PATH", PATH_DIRS);
      PutLooksUp(env, DEFAULT_PATH, k);
    }
  }

  /** A key without '=' is what its entry gives back. */
  lemma {:induction false} KeyOfEntry(k: string, v: string)
    requires '=' !in k
    ensures Key(k + "=" + v) == k
    decreases |k|
  {
    if k != "" {
      KeyOfEntry(k[1..], v);
      assert (k + "=" + v)[1..] == k[1..] + "=" + v;
    } else {
      assert (k + "=" + v)[0] == '=';
    }
  }

  // ---- Order ---------------------------------------------------------------

  ghost predicate SameKeys(a: seq<string>, b: seq<string>)
    requires |a| <= |b|
  {
    forall i :: 0 <= i < |a| ==> Key(a[i]) == Key(b[i])
  }

  /** Positions past the image hold the spec's new keys, each once, in the order
      they first appear in the spec, each with the spec's last entry. */
  ghost predicate NewKeys(env: seq<string>, image: seq<string>, spec: seq<string>)
    requires |image| <= |env|
  {
    && (forall i :: |image| <= i < |env| ==> IsNew(env[i], image, spec))
    && (forall i, j :: |image| <= i < j < |env| ==> Find(spec, Key(env[i])) < Find(spec, Key(env[j])))
    && (forall k :: Find(spec, k) < |spec| ==> Find(env, k) < |env|)
  }

  ghost predicate IsNew(entry: string, image: seq<string>, spec: seq<string>)
  {
    && Find(image, Key(entry)) == |image| && Find(spec, Key(entry)) < |spec|
    && Last(spec, Key(entry)) == Some(entry)
  }

  /** The image's entries keep their places; each slot changes only if it is its
      key's first and the spec names the key. */
  ghost predicate OldSlots(env: seq<string>, image: seq<string>, spec: seq<string>)
    requires |image| <= |env|
  {
    forall i :: 0 <= i < |image| ==>
      env[i] == if Find(image, Key(image[i])) == i && Last(spec, Key(image[i])).Some?
                then Last(spec, Key(image[i])).value else image[i]
  }

  lemma {:induction false} MergeOrder(image: seq<string>, spec: seq<string>)
    ensures var env := Overridden(image, spec);
            |image| <= |env| && SameKeys(image, env) && OldSlots(env, image, spec) && NewKeys(env, image, spec)
    decreases |spec|
  {
    if spec != [] {
      var env := Overridden(image, spec[..|spec| - 1]);
      MergeOrder(image, spec[..|spec| - 1]);
      FirstSlot(image, env, Key(spec[|spec| - 1]));
      SlotsStep(image, env, spec);
      NewStep(image, env, spec);
    }
  }

  /** A key of the image is found where the image has it first. */
  lemma FirstSlot(image: seq<string>, env: seq<string>, k: string)
    requires |image| <= |env| && SameKeys(image, env)
    ensures Find(image, k) < |image| ==> Find(env, k) == Find(image, k)
    ensures Find(image, k) == |image| ==> Find(env, k) >= |image|
  {
    var i := Find(image, k);
    if i < |image| {
      FoundAt(env, k, i);
    } else {
      forall j | 0 <= j < |image| ensures Key(env[j]) != k { assert Key(image[j]) != k; }
    }
  }

  lemma SlotsStep(image: seq<string>, env: seq<string>, spec: seq<string>)
    requires spec != [] && |image| <= |env| && SameKeys(image, env)
    requires OldSlots(env, image, spec[..|spec| - 1])
    ensures var put := Put(env, spec[|spec| - 1]);
            |image| <= |put| && SameKeys(image, put) && OldSlots(put, image, spec)
  {
    FirstSlot(image, env, Key(spec[|spec| - 1]));
  }

  /** A key met before keeps its first position in the spec. */
  lemma FindInPrefix(spec: seq<string>, k: string)
    requires spec != []
    ensures var n := |spec| - 1;
            && (Find(spec[..n], k) < n ==> Find(spec, k) == Find(spec[..n], k))
            && (Find(spec[..n], k) == n ==> Find(spec, k) == if Key(spec[n]) == k then n else n + 1)
  {
    var n := |spec| - 1;
    var i := Find(spec[..n], k);
    forall j | 0 <= j < i ensures Key(spec[j]) != k { assert spec[..n][j] == spec[j]; }
    FoundAt(spec, k, if i < n || Key(spec[n]) == k then i else n + 1);
  }

  lemma NewStep(image: seq<string>, env: seq<string>, spec: seq<string>)
    requires spec != [] && |image| <= |env| && SameKeys(image, env)
    requires NewKeys(env, image, spec[..|spec| - 1])
    ensures |image| <= |Put(env, spec[|spec| - 1])| && NewKeys(Put(env, spec[|spec| - 1]), image, spec)
  {
    var n := |spec| - 1;
    var put := Put(env, spec[n]);
    forall i | |image| <= i < |put| ensures IsNew(put[i], image, spec) {
      StaysNew(image, env, spec, i);
    }
    forall i, j | |image| <= i < j < |put| ensures Find(spec, Key(put[i])) < Find(spec, Key(put[j])) {
      StaysOrdered(image, env, spec, i, j);
    }
    forall k | Find(spec, k) < |spec| ensures Find(put, k) < |put| {
      PutLooksUp(env, spec[n], k);
      FindInPrefix(spec, k);
    }
  }

  lemma StaysNew(image: seq<string>, env: seq<string>, spec: seq<string>, i: nat)
    requires spec != [] && |image| <= |env| && SameKeys(image, env)
    requires NewKeys(env, image, spec[..|spec| - 1])
    requires |image| <= i < |Put(env, spec[|spec| - 1])|
    ensures IsNew(Put(env, spec[|spec| - 1])[i], image, spec)
  {
    var n := |spec| - 1;
    var k := Key(spec[n]);
    FirstSlot(image, env, k);
    if i < |env| {
      assert IsNew(env[i], image, spec[..n]);
      FindInPrefix(spec, Key(env[i]));
      if i != Find(env, k) {
        NewKeyElsewhere(image, env, spec[..n], i, k);
      }
    } else {
      FindInPrefix(spec, k);
    }
  }

  lemma StaysOrdered(image: seq<string>, env: seq<string>, spec: seq<string>, i: nat, j: nat)
    requires spec != [] && |image| <= |env|
    requires NewKeys(env, image, spec[..|spec| - 1])
    requires |image| <= i < j < |Put(env, spec[|spec| - 1])|
    ensures var put := Put(env, spec[|spec| - 1]); Find(spec, Key(put[i])) < Find(spec, Key(put[j]))
  {
    var n := |spec| - 1;
    PutKeys(env, spec[n]);
    assert IsNew(env[i], image, spec[..n]);
    FindInPrefix(spec, Key(env[i]));
    if j < |env| {
      assert IsNew(env[j], image, spec[..n]);
      FindInPrefix(spec, Key(env[j]));
    } else {
      FindInPrefix(spec, Key(spec[n]));
    }
  }

  lemma PutKeys(env: seq<string>, entry: string)
    ensures |env| <= |Put(env, entry)| <= |env| + 1 && SameKeys(env, Put(env, entry))
    ensures |Put(env, entry)| > |env| ==> Find(env, Key(entry)) == |env| && Put(env, entry)[|env|] == entry
  {
  }

  /** Beyond the image no two positions share a key. */
  lemma NewKeyElsewhere(image: seq<string>, env: seq<string>, spec: seq<string>, i: nat, k: string)
    requires |image| <= i < |env| && SameKeys(image, env) && NewKeys(env, image, spec)
    requires i != Find(env, k)
    ensures Key(env[i]) != k
  {
    FirstSlot(image, env, k);
    assert IsNew(env[i], image, spec);
  }

  ghost predicate UniqueKeys(env: seq<string>)
  {
    forall i, j :: 0 <= i < j < |env| ==> Key(env[i]) != Key(env[j])
  }

  /** An image with unique keys gives an environment with unique keys. */
  lemma KeysStayUnique(spec: seq<string>, image: seq<string>)
    requires UniqueKeys(image)
    ensures UniqueKeys(WithPath(Overridden(image, spec)))
  {
    var env := Overridden(image, spec);
    MergeOrder(image, spec);
    PathStaysUnique(env);
    forall i, j | 0 <= i < j < |env| ensures Key(env[i]) != Key(env[j]) {
      KeysDiffer(image, env, spec, i, j);
    }
  }

  lemma PathStaysUnique(env: seq<string>)
    ensures UniqueKeys(env) ==> UniqueKeys(WithPath(env))
  {
    KeyOfEntry("PATH", PATH_DIRS);
  }

  lemma KeysDiffer(image: seq<string>, env: seq<string>, spec: seq<string>, i: nat, j: nat)
    requires UniqueKeys(image) && |image| <= |env| && SameKeys(image, env) && NewKeys(env, image, spec)
    requires i < j < |env|
    ensures Key(env[i]) != Key(env[j])
  {
    if j >= |image| {
      assert IsNew(env[j], image, spec);
      if i < |image| {
        assert Key(image[i]) == Key(env[i]);
      }
    }
  }
}
