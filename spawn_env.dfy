/**
 * The environment rewriting of `src/spawnProcess.ts` before a service's process is spawned: the
 * `PATH` is extended by npm-run-path and cleaned of blank parts, and on Windows `PATHEXT` gets a
 * default and the binary is resolved to a full path. npm-run-path, `which`, `path.resolve` and
 * `path.normalize` are foreign and come in as parameters.
 */
module SpawnEnv {
  import opened Results
  import opened Text
  import opened Entries

  type Env = seq<(string, string)>

  /** The definition `node-which` uses: Windows, or a Cygwin or MSYS shell on it. */
  function IsWindows(platform: string, osType: Option<string>): (b: bool)
    ensures b <==> platform == "win32" || osType == Some("cygwin") || osType == Some("msys")
  {
    platform == "win32" || osType == Some("cygwin") || osType == Some("msys")
  }

  /** The separator of `PATH` entries: `;` on Windows, `:` elsewhere. */
  function PathSeparator(isWindows: bool): char {
    if isWindows then ';' else ':'
  }

  const DefaultPathExt: string := ".COM;.EXE;.BAT;.CMD;.VBS;.VBE;.JS;.JSE;.WSF;.WSH"

  /** `a || b` for an optional string: the empty string is falsy. */
  function OrElse(a: Option<string>, b: string): (r: string)
    ensures a.Some? && a.value != "" ==> r == a.value
    ensures !(a.Some? && a.value != "") ==> r == b
  {
    if a.Some? && a.value != "" then a.value else b
  }

  /** Two environment keys name the same variable when they agree after `toUpperCase()`. */
  predicate SameKey(a: string, b: string) {
    ToUpper(a) == ToUpper(b)
  }

  /** `readEnvCaseInsensitive(env, key)`: the value of the last key, in `Object.keys` order, that
      names the same variable as `key`. */
  function ReadEnvCaseInsensitive(env: Env, key: string): (r: Option<string>)
    decreases |env|
  {
    if env == [] then None
    else
      var last := env[|env| - 1];
      if SameKey(last.0, key) then Some(last.1) else ReadEnvCaseInsensitive(env[..|env| - 1], key)
  }

  /** The variable reads as absent exactly when no key names it; otherwise it reads as the value
      of a key that names it and after which no key names it. */
  lemma {:induction false} ReadEnvLastMatch(env: Env, key: string)
    ensures ReadEnvCaseInsensitive(env, key).None? <==> forall i :: 0 <= i < |env| ==> !SameKey(env[i].0, key)
    ensures ReadEnvCaseInsensitive(env, key).Some? ==> exists i :: (0 <= i < |env| && SameKey(env[i].0, key) &&
      env[i].1 == ReadEnvCaseInsensitive(env, key).value && forall j :: i < j < |env| ==> !SameKey(env[j].0, key))
    decreases |env|
  {
    if env != [] && !SameKey(env[|env| - 1].0, key) {
      ReadEnvLastMatch(env[..|env| - 1], key);
      assert forall i :: 0 <= i < |env| - 1 ==> env[..|env| - 1][i] == env[i];
    }
  }

  /** The entries whose key does not name the same variable as `key`, in order. */
  function Unmatched(env: Env, key: string): (r: Env)
    ensures forall i :: 0 <= i < |r| ==> !SameKey(r[i].0, key) && r[i] in env
    ensures forall i :: 0 <= i < |env| && !SameKey(env[i].0, key) ==> env[i] in r
    decreases |env|
  {
    if env == [] then []
    else
      var last := env[|env| - 1];
      var front := Unmatched(env[..|env| - 1], key);
      assert forall i :: 0 <= i < |env| - 1 ==> env[..|env| - 1][i] == env[i];
      if SameKey(last.0, key) then front else front + [last]
  }

  /**
   * `writeEnvCaseNormalized(env, key, value)`: every spelling of the variable is dropped and the
   * upper-case key is assigned last. The result names the variable exactly once, under the
   * upper-case key, as its final entry.
   */
  function WriteEnvCaseNormalized(env: Env, key: string, value: string): (r: Env)
    ensures |r| >= 1 && r[|r| - 1] == (ToUpper(key), value)
    ensures forall i :: 0 <= i < |r| - 1 ==> !SameKey(r[i].0, key)
    ensures SameKey(ToUpper(key), key)
    ensures forall i :: 0 <= i < |env| && !SameKey(env[i].0, key) ==> env[i] in r
    ensures forall e :: e in r ==> e in env || e == (ToUpper(key), value)
  {
    var kept := Unmatched(env, key);
    ToUpperIdempotent(key);
    forall i | 0 <= i < |kept| ensures Keys(kept)[i] != ToUpper(key) {
      assert Keys(kept)[i] == kept[i].0;
    }
    AssignNew(kept, ToUpper(key), value);
    Assign(kept, ToUpper(key), value)
  }

  /** Reading a variable right after writing it gives the written value. */
  lemma ReadAfterWrite(env: Env, key: string, value: string)
    ensures ReadEnvCaseInsensitive(WriteEnvCaseNormalized(env, key, value), key) == Some(value)
  {
    var r := WriteEnvCaseNormalized(env, key, value);
    assert r[|r| - 1] == (ToUpper(key), value);
  }

  /** Dropping one variable does not change how any other variable reads. */
  lemma {:induction false} ReadUnmatched(env: Env, key: string, other: string)
    requires !SameKey(other, key)
    ensures ReadEnvCaseInsensitive(Unmatched(env, key), other) == ReadEnvCaseInsensitive(env, other)
    decreases |env|
  {
    if env != [] {
      var last := env[|env| - 1];
      var front := Unmatched(env[..|env| - 1], key);
      ReadUnmatched(env[..|env| - 1], key, other);
      if !SameKey(last.0, key) {
        assert (front + [last])[..|front + [last]| - 1] == front;
      }
    }
  }

  /** Writing one variable leaves every other variable reading as before. */
  lemma ReadAfterWriteOther(env: Env, key: string, value: string, other: string)
    requires !SameKey(other, key)
    ensures ReadEnvCaseInsensitive(WriteEnvCaseNormalized(env, key, value), other) ==
            ReadEnvCaseInsensitive(env, other)
  {
    var r := WriteEnvCaseNormalized(env, key, value);
    var kept := Unmatched(env, key);
    AssignNew(kept, ToUpper(key), value) by {
      ToUpperIdempotent(key);
      forall i | 0 <= i < |kept| ensures Keys(kept)[i] != ToUpper(key) {
        assert Keys(kept)[i] == kept[i].0;
      }
    }
    assert r == kept + [(ToUpper(key), value)];
    assert r[..|r| - 1] == kept;
    ToUpperIdempotent(key);
    ReadUnmatched(env, key, other);
  }

  /**
   * `filterBlankParts(string)`: the list split on the separator, empty entries dropped, joined
   * back. The entries of the result are exactly the non-empty entries of the input, in order, and
   * none of them is empty.
   */
  function FilterBlankParts(s: string, sep: char): (r: string)
    ensures r == "" <==> NonEmptyParts(Split(s, sep)) == []
    ensures r != "" ==> Split(r, sep) == NonEmptyParts(Split(s, sep))
    ensures r != "" ==> forall i :: 0 <= i < |Split(r, sep)| ==> Split(r, sep)[i] != ""
  {
    var parts := NonEmptyParts(Split(s, sep));
    var r := Join(parts, [sep]);
    if parts == [] then r
    else
      assert forall i :: 0 <= i < |parts| ==> SeparatorFree(parts[i], x => x == sep) by {
        forall i | 0 <= i < |parts| ensures SeparatorFree(parts[i], x => x == sep) {
          var j :| 0 <= j < |Split(s, sep)| && Split(s, sep)[j] == parts[i];
        }
      }
      SplitByJoin(parts, sep, x => x == sep);
      r
  }

  /** Cleaning a cleaned list changes nothing. */
  lemma FilterBlankPartsIdempotent(s: string, sep: char)
    ensures FilterBlankParts(FilterBlankParts(s, sep), sep) == FilterBlankParts(s, sep)
  {
    var r := FilterBlankParts(s, sep);
    if r == "" {
      assert Split("", sep) == [""];
      assert NonEmptyParts([""]) == [];
    } else {
      NonEmptyPartsIdentity(Split(r, sep));
      JoinSplit(r, sep);
    }
  }

  /** Every variable other than `key` reads the same in `a` and in `b`. */
  ghost predicate ReadsAsBefore(a: Env, b: Env, key: string) {
    forall k :: !SameKey(k, key) ==> ReadEnvCaseInsensitive(a, k) == ReadEnvCaseInsensitive(b, k)
  }

  /** `PATH` and `PATHEXT` are different variables. */
  lemma PathAndPathExtDiffer()
    ensures !SameKey("PATH", "PATHEXT") && !SameKey("PATHEXT", "PATH")
  {
    assert |ToUpper("PATH")| != |ToUpper("PATHEXT")|;
  }

  /** `PATHEXT` is already upper-case. */
  lemma PathExtUpper()
    ensures ToUpper("PATHEXT") == "PATHEXT"
  {
    var u := ToUpper("PATHEXT");
    assert u[0] == 'P' && u[1] == 'A' && u[2] == 'T' && u[3] == 'H';
    assert u[4] == 'E' && u[5] == 'X' && u[6] == 'T';
  }

  /** Writing a variable keeps every entry of any other variable, so its key stays present. */
  lemma WriteKeepsKey(env: Env, key: string, value: string, k: string)
    requires k in Keys(env) && !SameKey(k, key)
    ensures k in Keys(WriteEnvCaseNormalized(env, key, value))
  {
    var env' := WriteEnvCaseNormalized(env, key, value);
    var i :| 0 <= i < |env| && Keys(env)[i] == k;
    assert env[i] in env';
    var j :| 0 <= j < |env'| && env'[j] == env[i];
    assert Keys(env')[j] == k;
  }

  /**
   * `env = writeEnvCaseNormalized(env, key, value)` as its caller sees it: the variable reads as
   * the written value under the upper-case key, every other variable reads as before, every entry
   * of another variable is kept, and nothing else is added.
   */
  method WriteEnv(env: Env, key: string, value: string) returns (r: Env)
    ensures r == WriteEnvCaseNormalized(env, key, value)
    ensures ReadEnvCaseInsensitive(r, key) == Some(value)
    ensures ToUpper(key) in Keys(r)
    ensures ReadsAsBefore(r, env, key)
    ensures forall k :: k in Keys(env) && !SameKey(k, key) ==> k in Keys(r)
    ensures forall e :: e in env && !SameKey(e.0, key) ==> e in r
    ensures forall e :: e in r ==> e in env || e == (ToUpper(key), value)
  {
    r := WriteEnvCaseNormalized(env, key, value);
    forall e | e in env && !SameKey(e.0, key) ensures e in r {
      var i :| 0 <= i < |env| && env[i] == e;
    }
    ReadAfterWrite(env, key, value);
    assert Keys(r)[|r| - 1] == ToUpper(key);
    forall k | !SameKey(k, key) ensures ReadEnvCaseInsensitive(r, k) == ReadEnvCaseInsensitive(env, k) {
      ReadAfterWriteOther(env, key, value, k);
    }
    forall k | k in Keys(env) && !SameKey(k, key) ensures k in Keys(r) {
      WriteKeepsKey(env, key, value, k);
    }
  }

  /** Two writes in a row leave every third variable reading as it did before both. */
  lemma ReadsAsBeforeChain(a: Env, b: Env, c: Env, key1: string, key2: string)
    requires ReadsAsBefore(b, a, key1) && ReadsAsBefore(c, b, key2)
    ensures forall k :: !SameKey(k, key1) && !SameKey(k, key2) ==>
      ReadEnvCaseInsensitive(c, k) == ReadEnvCaseInsensitive(a, k)
  {
  }

  /** The part of a service's configuration that spawning reads. */
  datatype SpawnConfig = SpawnConfig(cwd: string, command: seq<string>, env: Env)

  /** What `spawn(binary, args, { cwd, env })` is finally called with. */
  datatype SpawnRequest = SpawnRequest(binary: string, args: seq<string>, cwd: string, env: Env)

  /**
   * `spawnProcess(config)` up to the `spawn` call. The `PATH` (under any spelling) is replaced by
   * npm-run-path's extension of it, cleaned of blank parts, under the key `PATH`; on Windows
   * `PATHEXT` keeps its value under any spelling or gets the default list, and the binary becomes
   * what `which` finds for it with those two values, if anything. Every other variable reads as
   * before, every entry of another variable is passed on (a spelling that differs only in case
   * included), and nothing else is added.
   */
  method SpawnProcess(config: SpawnConfig, isWindows: bool,
                      resolve: string -> string,
                      npmRunPath: (string, string) -> string,
                      which: (string, string, string, string) -> Option<string>,
                      normalize: string -> string)
    returns (req: SpawnRequest)
    requires |config.command| >= 1
    ensures req.cwd == resolve(config.cwd) && req.args == config.command[1..]
    ensures var path := npmRunPath(resolve(config.cwd), ReadEnvCaseInsensitive(config.env, "PATH").GetOr(""));
      ReadEnvCaseInsensitive(req.env, "PATH") == Some(FilterBlankParts(path, PathSeparator(isWindows)))
    ensures "PATH" in Keys(req.env)
    ensures isWindows ==>
      ReadEnvCaseInsensitive(req.env, "PATHEXT") == Some(OrElse(ReadEnvCaseInsensitive(config.env, "PATHEXT"), DefaultPathExt))
    ensures forall k :: !SameKey(k, "PATH") && !(isWindows && SameKey(k, "PATHEXT")) ==>
      ReadEnvCaseInsensitive(req.env, k) == ReadEnvCaseInsensitive(config.env, k)
    ensures forall e :: e in config.env && !SameKey(e.0, "PATH") && !(isWindows && SameKey(e.0, "PATHEXT")) ==>
      e in req.env
    ensures forall e :: e in req.env ==> e in config.env || e.0 == "PATH" || (isWindows && e.0 == "PATHEXT")
    ensures !isWindows ==> req.binary == config.command[0]
    ensures isWindows ==> (req.binary ==
      normalize(OrElse(which(req.cwd, config.command[0], ReadEnvCaseInsensitive(req.env, "PATH").value,
                             ReadEnvCaseInsensitive(req.env, "PATHEXT").value), config.command[0])))
  {
    var cwd := resolve(config.cwd);
    var binary := config.command[0];
    var args := config.command[1..];
    var env := config.env;

    var path := OrElse(ReadEnvCaseInsensitive(env, "PATH"), "");
    path := FilterBlankParts(npmRunPath(cwd, path), PathSeparator(isWindows));
    env := WriteEnv(env, "PATH", path);
    assert ToUpper("PATH") == "PATH";

    if isWindows {
      var env1 := env;
      var pathExt := OrElse(ReadEnvCaseInsensitive(env, "PATHEXT"), DefaultPathExt);
      PathAndPathExtDiffer();
      env := WriteEnv(env, "PATHEXT", pathExt);
      PathExtUpper();
      forall e | e in config.env && !SameKey(e.0, "PATH") && !SameKey(e.0, "PATHEXT") ensures e in env {
        assert e in env1;
      }
      forall e | e in env ensures e in config.env || e.0 == "PATH" || e.0 == "PATHEXT" {
        assert e in env1 || e == ("PATHEXT", pathExt);
      }
      ReadsAsBeforeChain(config.env, env1, env, "PATH", "PATHEXT");
      binary := normalize(OrElse(which(cwd, binary, path, pathExt), binary));
    }

    req := SpawnRequest(binary, args, cwd, env);
  }
}

/**
 * The environment rewriting of `src/core/spawnProcess.ts`: the `PATH` is read from the key that
 * path-key picks and always written back as `PATH`, next to whatever spelling was there before;
 * `PATHEXT` is read under exactly that spelling. Every other entry is copied unchanged.
 */
module CoreSpawnEnv {
  import opened Results
  import opened Entries
  import opened SpawnEnv

  /** `env.k = v`: `k` reads `v`, every other key reads as before, and no key is lost. */
  lemma SetVariable(env: Env, k: string, v: string)
    ensures Get(Assign(env, k, v), k) == Some(v)
    ensures forall k' :: k' != k ==> Get(Assign(env, k, v), k') == Get(env, k')
    ensures Keys(env) <= Keys(Assign(env, k, v))
  {
    forall k' {
      GetAssign(env, k, v, k');
    }
  }

  /**
   * `spawnProcess(config)` up to the `spawn` call; `pathKey` is what path-key returns for the
   * configured environment.
   */
  method SpawnProcess(config: SpawnConfig, isWindows: bool, pathKey: string,
                      resolve: string -> string,
                      npmRunPath: (string, string) -> string,
                      which: (string, string, string, string) -> Option<string>,
                      normalize: string -> string)
    returns (req: SpawnRequest)
    requires |config.command| >= 1
    ensures req.cwd == resolve(config.cwd) && req.args == config.command[1..]
    ensures var path := npmRunPath(resolve(config.cwd), OrElse(Get(config.env, pathKey), ""));
      Get(req.env, "PATH") == Some(FilterBlankParts(path, PathSeparator(isWindows)))
    ensures isWindows ==> Get(req.env, "PATHEXT") == Some(OrElse(Get(config.env, "PATHEXT"), DefaultPathExt))
    ensures forall k :: k != "PATH" && !(isWindows && k == "PATHEXT") ==> Get(req.env, k) == Get(config.env, k)
    ensures Keys(config.env) <= Keys(req.env)
    ensures !isWindows ==> req.binary == config.command[0]
    ensures isWindows ==> (req.binary ==
      normalize(OrElse(which(req.cwd, config.command[0], Get(req.env, "PATH").value, Get(req.env, "PATHEXT").value),
                       config.command[0])))
  {
    var cwd := resolve(config.cwd);
    var binary := config.command[0];
    var args := config.command[1..];
    var env := config.env;

    var path := FilterBlankParts(npmRunPath(cwd, OrElse(Get(config.env, pathKey), "")), PathSeparator(isWindows));
    SetVariable(env, "PATH", path);
    env := Assign(env, "PATH", path);

    if isWindows {
      var pathExt := OrElse(Get(config.env, "PATHEXT"), DefaultPathExt);
      SetVariable(env, "PATHEXT", pathExt);
      env := Assign(env, "PATHEXT", pathExt);
      binary := normalize(OrElse(which(cwd, binary, path, pathExt), binary));
    }

    req := SpawnRequest(binary, args, cwd, env);
  }
}
