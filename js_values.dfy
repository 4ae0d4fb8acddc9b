/**
 * Loosely typed configuration values, as the older validators under `src/core/` receive them from
 * plain JavaScript callers, and the normalisation steps both of those validators share: the
 * `dependencies` list, the `command` and the `env` object. Each step reports which problem it
 * met; each validator words the problem its own way.
 */
module JsValues {
  import opened Results
  import opened Text
  import Entries

  /** A JavaScript value. Numbers are integers; a function carries its source text. */
  datatype JsValue =
    | Undefined
    | Null
    | Bool(b: bool)
    | Num(n: int)
    | Str(s: string)
    | Func(source: string)
    | Arr(items: seq<JsValue>)
    | Obj(entries: seq<(string, JsValue)>)

  /** Objects have distinct keys, at every level. */
  predicate WellFormed(v: JsValue) {
    match v
    case Arr(items) => forall i :: 0 <= i < |items| ==> WellFormed(items[i])
    case Obj(es) => Entries.DistinctKeys(es) && forall i :: 0 <= i < |es| ==> WellFormed(es[i].1)
    case _ => true
  }

  /** `Boolean(v)`. */
  predicate Truthy(v: JsValue): (r: bool)
    ensures !r <==> v == Undefined || v == Null || v == Bool(false) || v == Num(0) || v == Str("")
  {
    match v
    case Undefined => false
    case Null => false
    case Bool(b) => b
    case Num(n) => n != 0
    case Str(s) => s != ""
    case _ => true
  }

  /** `String(v)`: arrays join their items with "," and show `null`/`undefined` items as "". */
  function ToJsString(v: JsValue): (r: string)
    ensures v.Str? ==> r == v.s
    ensures v.Num? && v.n >= 0 ==> (forall i :: 0 <= i < |r| ==> IsDigit(r[i])) && DigitsValue(r) == v.n
    ensures v.Num? && v.n < 0 ==>
      |r| >= 2 && r[0] == '-' && (forall i :: 1 <= i < |r| ==> IsDigit(r[i])) && DigitsValue(r[1..]) == -v.n
    ensures v.Arr? && v.items == [] ==> r == ""
  {
    match v
    case Undefined => "undefined"
    case Null => "null"
    case Bool(b) => if b then "true" else "false"
    case Num(n) =>
      DigitsValueOfNatToString(if n < 0 then -n else n);
      IntToString(n)
    case Str(s) => s
    case Func(source) => source
    case Arr(items) =>
      Join(seq(|items|, i requires 0 <= i < |items| =>
        if items[i].Undefined? || items[i].Null? then "" else ToJsString(items[i])), ",")
    case Obj(_) => "[object Object]"
  }

  /** `obj.name`: an own property of a plain object, `undefined` otherwise. */
  function Prop(v: JsValue, name: string): (r: JsValue)
    ensures !v.Obj? ==> r == Undefined
    ensures v.Obj? && name !in Entries.Keys(v.entries) ==> r == Undefined
    ensures v.Obj? && r != Undefined ==> (name, r) in v.entries
  {
    if v.Obj? then Entries.Get(v.entries, name).GetOr(Undefined) else Undefined
  }

  /** `Object.entries(v)`: own properties of an object, indexed items of an array or characters of
      a string; nothing for any other value. */
  function EntriesOf(v: JsValue): (es: seq<(string, JsValue)>)
    ensures v.Obj? ==> es == v.entries
    ensures v.Arr? ==> |es| == |v.items| && forall i :: 0 <= i < |es| ==> es[i].1 == v.items[i]
    ensures v.Str? ==> |es| == |v.s| && forall i :: 0 <= i < |es| ==> es[i].1 == Str([v.s[i]])
    ensures !v.Obj? && !v.Arr? && !v.Str? ==> es == []
  {
    match v
    case Obj(es) => es
    case Arr(items) => seq(|items|, i requires 0 <= i < |items| => (NatToString(i), items[i]))
    case Str(s) => seq(|s|, i requires 0 <= i < |s| => (NatToString(i), Str([s[i]])))
    case _ => []
  }

  lemma NatToStringInjective(m: nat, n: nat)
    requires NatToString(m) == NatToString(n)
    ensures m == n
  {
    DigitsValueOfNatToString(m);
    DigitsValueOfNatToString(n);
  }

  /** The keys `Object.entries` yields are distinct, so they can be put back into an object. */
  lemma EntriesOfDistinct(v: JsValue)
    requires WellFormed(v)
    ensures Entries.DistinctKeys(EntriesOf(v))
  {
    var es := EntriesOf(v);
    if v.Arr? || v.Str? {
      forall i, j | 0 <= i < j < |es| ensures es[i].0 != es[j].0 {
        if es[i].0 == es[j].0 {
          NatToStringInjective(i, j);
        }
      }
    }
  }

  /** `typeof v` is "string" or "number". */
  predicate StringOrNumber(v: JsValue) {
    v.Str? || v.Num?
  }

  // ---------------------------------------------------------------------------------------------
  // dependencies

  datatype DependencyProblem = NotAnArray | InvalidServiceId(shown: string)

  /** A valid dependency is a string naming one of the configured services. */
  predicate IsServiceId(v: JsValue, ids: seq<string>) {
    v.Str? && v.s in ids
  }

  /**
   * `const dependencies = config.dependencies || []`, the `Array.isArray` check, and the
   * `forEach` that rejects the first item not among the configured ids, shown with `String`.
   */
  function NormalizeDependencies(deps: JsValue, ids: seq<string>): (r: Result<seq<string>, DependencyProblem>)
    ensures !Truthy(deps) ==> r == Ok([])
    ensures Truthy(deps) && !deps.Arr? ==> r == Err(NotAnArray)
    ensures r.Ok? && deps.Arr? ==>
      |r.value| == |deps.items| && forall i :: 0 <= i < |deps.items| ==> deps.items[i] == Str(r.value[i])
    ensures r.Ok? ==> forall d :: d in r.value ==> d in ids
    ensures deps.Arr? ==> (r.Ok? <==> forall i :: 0 <= i < |deps.items| ==> IsServiceId(deps.items[i], ids))
    ensures r.Err? && r.error.InvalidServiceId? ==>
      (deps.Arr? &&
       exists i :: 0 <= i < |deps.items| && !IsServiceId(deps.items[i], ids) && r.error.shown == ToJsString(deps.items[i]))
  {
    if !Truthy(deps) then Ok([])
    else if !deps.Arr? then Err(NotAnArray)
    else
      match FirstInvalid(deps.items, ids)
      case Some(bad) => Err(InvalidServiceId(ToJsString(bad)))
      case None => Ok(seq(|deps.items|, i requires 0 <= i < |deps.items| => StrOf(deps.items[i])))
  }

  function StrOf(v: JsValue): string {
    if v.Str? then v.s else ""
  }

  /** The first item that is not a configured service id, if any. */
  function FirstInvalid(items: seq<JsValue>, ids: seq<string>): (r: Option<JsValue>)
    ensures r.None? <==> forall i :: 0 <= i < |items| ==> IsServiceId(items[i], ids)
    ensures r.Some? ==> r.value in items && !IsServiceId(r.value, ids)
  {
    if items == [] then None
    else if !IsServiceId(items[0], ids) then Some(items[0])
    else FirstInvalid(items[1..], ids)
  }

  // ---------------------------------------------------------------------------------------------
  // command

  datatype CommandProblem = NotStringOrArray | ElementNotStringOrNumber

  /**
   * A string command becomes its whitespace-separated tokens; an array is kept; anything else is
   * rejected; then every element must be a string or a number and is passed through `String`.
   */
  function NormalizeCommand(command: JsValue): (r: Result<seq<string>, CommandProblem>)
    ensures command.Str? ==> r == Ok(Tokens(command.s))
    ensures !command.Str? && !command.Arr? ==> r == Err(NotStringOrArray)
    ensures command.Arr? ==> (r.Ok? <==> forall i :: 0 <= i < |command.items| ==> StringOrNumber(command.items[i]))
    ensures command.Arr? && r.Ok? ==>
      |r.value| == |command.items| &&
      forall i :: 0 <= i < |command.items| ==> r.value[i] == ToJsString(command.items[i])
    ensures r.Err? && command.Arr? ==> r.error == ElementNotStringOrNumber
  {
    var c := if command.Str? then TokenArray(command.s) else command;
    if !c.Arr? then Err(NotStringOrArray)
    else if forall i :: 0 <= i < |c.items| ==> StringOrNumber(c.items[i]) then
      var out := seq(|c.items|, i requires 0 <= i < |c.items| => ToJsString(c.items[i]));
      assert command.Str? ==> out == Tokens(command.s) by {
        if command.Str? {
          assert forall i :: 0 <= i < |out| ==> out[i] == Tokens(command.s)[i];
        }
      }
      Ok(out)
    else Err(ElementNotStringOrNumber)
  }

  /** `s.split(/\s+/).filter(Boolean)` as an array value. */
  function TokenArray(s: string): (a: JsValue)
    ensures a.Arr? && |a.items| == |Tokens(s)|
    ensures forall i :: 0 <= i < |a.items| ==> a.items[i] == Str(Tokens(s)[i])
  {
    var ts := Tokens(s);
    Arr(seq(|ts|, i requires 0 <= i < |ts| => Str(ts[i])))
  }

  // ---------------------------------------------------------------------------------------------
  // env

  /** The entries of `config.env || {}` whose value is not `undefined`, in order. */
  function DefinedEntries(es: seq<(string, JsValue)>): (r: seq<(string, JsValue)>)
    ensures forall i :: 0 <= i < |r| ==> r[i] in es && r[i].1 != Undefined
    ensures forall e :: e in es && e.1 != Undefined ==> e in r
  {
    if es == [] then []
    else if es[0].1 == Undefined then DefinedEntries(es[1..])
    else [es[0]] + DefinedEntries(es[1..])
  }
  /** The filter keeps the order: filtering a concatenation concatenates the filtered halves. */
  lemma {:induction false} DefinedEntriesAppend(a: seq<(string, JsValue)>, b: seq<(string, JsValue)>)
    ensures DefinedEntries(a + b) == DefinedEntries(a) + DefinedEntries(b)
  {
    if a == [] {
      assert a + b == b;
    } else {
      assert (a + b)[0] == a[0] && (a + b)[1..] == a[1..] + b;
      DefinedEntriesAppend(a[1..], b);
    }
  }


  /** The first defined entry whose value is neither a string nor a number: its key is named in the
      error. Otherwise every value passed through `String`. */
  function StringifyEnv(es: seq<(string, JsValue)>): (r: Result<seq<(string, string)>, string>)
    ensures r.Ok? <==> forall i :: 0 <= i < |es| ==> StringOrNumber(es[i].1)
    ensures r.Ok? ==>
      (|r.value| == |es| && forall i :: 0 <= i < |es| ==> r.value[i] == (es[i].0, ToJsString(es[i].1)))
    ensures r.Err? ==> exists i :: 0 <= i < |es| && es[i].0 == r.error && !StringOrNumber(es[i].1)
  {
    if es == [] then Ok([])
    else if !StringOrNumber(es[0].1) then Err(es[0].0)
    else
      match StringifyEnv(es[1..])
      case Err(k) => Err(k)
      case Ok(rest) => Ok([(es[0].0, ToJsString(es[0].1))] + rest)
  }

  /** The env object the service is spawned with, or the key of the first unusable value. */
  function NormalizeEnv(env: JsValue): (r: Result<seq<(string, string)>, string>)
    ensures !Truthy(env) ==> r == Ok([])
    ensures r.Err? ==>
      exists e :: e in EntriesOf(env) && e.0 == r.error && e.1 != Undefined && !StringOrNumber(e.1)
  {
    StringifyEnv(DefinedEntries(if Truthy(env) then EntriesOf(env) else []))
  }

  /** The value a key has in the environment given by the caller, after `String`. */
  function ExpectedEnvValue(v: Option<JsValue>): Option<string> {
    match v
    case Some(x) => if x == Undefined then None else Some(ToJsString(x))
    case None => None
  }

  /** Dropping the `undefined` entries keeps the keys distinct. */
  lemma {:induction false} DefinedEntriesDistinct(es: seq<(string, JsValue)>)
    requires Entries.DistinctKeys(es)
    ensures Entries.DistinctKeys(DefinedEntries(es))
  {
    if es != [] {
      DefinedEntriesDistinct(es[1..]);
      var rest := DefinedEntries(es[1..]);
      if es[0].1 != Undefined {
        forall i | 0 <= i < |rest| ensures rest[i].0 != es[0].0 {
          var j :| 0 <= j < |es[1..]| && es[1..][j] == rest[i];
          assert es[j + 1] == rest[i];
        }
      }
    }
  }

  /** After the filter, a key reads as before unless its value was `undefined`. */
  lemma {:induction false} GetDefinedEntries(es: seq<(string, JsValue)>, k: string)
    requires Entries.DistinctKeys(es)
    ensures Entries.Get(DefinedEntries(es), k) ==
      match Entries.Get(es, k)
      case Some(x) => if x == Undefined then None else Some(x)
      case None => None
  {
    if es != [] {
      assert Entries.DistinctKeys(es[1..]) by {
        forall i, j | 0 <= i < j < |es[1..]| ensures es[1..][i].0 != es[1..][j].0 {
          assert es[1..][i] == es[i + 1] && es[1..][j] == es[j + 1];
        }
      }
      GetDefinedEntries(es[1..], k);
      if es[0].0 == k && es[0].1 == Undefined {
        assert k !in Entries.Keys(es[1..]) by {
          forall i | 0 <= i < |es[1..]| ensures es[1..][i].0 != k {
            assert es[i + 1] == es[1..][i];
          }
        }
      }
    }
  }


  lemma {:induction false} GetStringified(es: seq<(string, JsValue)>, k: string)
    requires StringifyEnv(es).Ok?
    ensures Entries.Get(StringifyEnv(es).value, k) ==
      match Entries.Get(es, k)
      case Some(x) => Some(ToJsString(x))
      case None => None
  {
    if es != [] {
      GetStringified(es[1..], k);
    }
  }

  /**
   * The normalised env keeps exactly the keys whose value is not `undefined`, each mapped to
   * `String(value)`; it fails exactly when some defined value is neither a string nor a number.
   */
  lemma NormalizeEnvMeaning(env: JsValue, k: string)
    requires WellFormed(env)
    ensures var es := if Truthy(env) then EntriesOf(env) else [];
      && (NormalizeEnv(env).Ok? <==> forall e :: e in es && e.1 != Undefined ==> StringOrNumber(e.1))
      && (NormalizeEnv(env).Ok? ==>
            Entries.DistinctKeys(NormalizeEnv(env).value) &&
            Entries.Get(NormalizeEnv(env).value, k) == ExpectedEnvValue(Entries.Get(es, k)))
  {
    var es := if Truthy(env) then EntriesOf(env) else [];
    if Truthy(env) {
      EntriesOfDistinct(env);
    }
    var d := DefinedEntries(es);
    DefinedEntriesDistinct(es);
    GetDefinedEntries(es, k);
    var r := StringifyEnv(d);
    if r.Ok? {
      GetStringified(d, k);
      assert Entries.Keys(r.value) == Entries.Keys(d);
    } else {
      var i :| 0 <= i < |d| && d[i].0 == r.error && !StringOrNumber(d[i].1);
      assert d[i] in es;
    }
  }

  // ---------------------------------------------------------------------------------------------
  // ready / handleCrash

  /** The function a service runs: one the caller gave, or the built-in default. */
  datatype Callback = UserFunction(source: string) | BuiltInDefault

  /** `const f = value || defaultFunction` followed by the `typeof f === 'function'` check. */
  function CallbackOrDefault(v: JsValue): (r: Option<Callback>)
    ensures !Truthy(v) ==> r == Some(BuiltInDefault)
    ensures Truthy(v) ==> (r.Some? <==> v.Func?)
    ensures r.Some? && r.value.UserFunction? ==> v == Func(r.value.source)
  {
    if !Truthy(v) then Some(BuiltInDefault)
    else if v.Func? then Some(UserFunction(v.source))
    else None
  }
}
