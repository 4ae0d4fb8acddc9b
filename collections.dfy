/**
 * JavaScript plain objects as ordered lists of (key, value) entries, held in the order
 * `Object.entries` lists them: integer-like keys first, in ascending order, then the other keys in
 * insertion order. Several decisions of the system depend on that order.
 */
module Entries {
  import opened Results

  predicate DistinctKeys<V>(es: seq<(string, V)>) {
    forall i, j :: 0 <= i < j < |es| ==> es[i].0 != es[j].0
  }

  function Keys<V>(es: seq<(string, V)>): (ks: seq<string>)
    ensures |ks| == |es| && forall i :: 0 <= i < |es| ==> ks[i] == es[i].0
  {
    seq(|es|, i requires 0 <= i < |es| => es[i].0)
  }

  /** `obj[k]`: the value stored under `k`, if any. */
  function Get<V>(es: seq<(string, V)>, k: string): (r: Option<V>)
    ensures r.None? <==> k !in Keys(es)
    ensures r.Some? ==> (k, r.value) in es
  {
    if es == [] then None
    else if es[0].0 == k then Some(es[0].1)
    else Get(es[1..], k)
  }

  /** In an object with distinct keys, each entry is what its key reads as. */
  lemma {:induction false} GetEntry<V>(es: seq<(string, V)>, i: nat)
    requires DistinctKeys(es) && i < |es|
    ensures Get(es, es[i].0) == Some(es[i].1)
  {
    if i > 0 {
      GetEntry(es[1..], i - 1);
    }
  }

  /** Putting an entry with a new key in front keeps the keys distinct. */
  lemma ConsDistinct<V>(e: (string, V), rest: seq<(string, V)>)
    requires DistinctKeys(rest) && Get(rest, e.0).None?
    ensures DistinctKeys([e] + rest)
  {
    forall j | 0 <= j < |rest| ensures rest[j].0 != e.0 {
      assert Keys(rest)[j] == rest[j].0;
    }
  }

  /** `obj[k] = v`: overwrite in place when `k` is present, otherwise append. */
  function Assign<V>(es: seq<(string, V)>, k: string, v: V): (r: seq<(string, V)>)
    ensures Keys(r) == if k in Keys(es) then Keys(es) else Keys(es) + [k]
  {
    if es == [] then [(k, v)]
    else if es[0].0 == k then [(k, v)] + es[1..]
    else [es[0]] + Assign(es[1..], k, v)
  }

  /** Assigning a key the object does not have appends it. */
  lemma {:induction false} AssignNew<V>(es: seq<(string, V)>, k: string, v: V)
    requires k !in Keys(es)
    ensures Assign(es, k, v) == es + [(k, v)]
  {
    if es != [] {
      assert Keys(es)[0] == es[0].0;
      assert k !in Keys(es[1..]) by {
        forall j | 0 <= j < |es[1..]| ensures Keys(es[1..])[j] != k {
          assert Keys(es[1..])[j] == Keys(es)[j + 1];
        }
      }
      AssignNew(es[1..], k, v);
      assert [es[0]] + (es[1..] + [(k, v)]) == es + [(k, v)];
    }
  }

  lemma {:induction false} AssignDistinct<V>(es: seq<(string, V)>, k: string, v: V)
    requires DistinctKeys(es)
    ensures DistinctKeys(Assign(es, k, v))
  {
    if es != [] && es[0].0 != k {
      AssignDistinct(es[1..], k, v);
      var t := Assign(es[1..], k, v);
      assert es[0].0 !in Keys(t);
      forall i | 0 <= i < |t| ensures t[i].0 != es[0].0 {
        assert Keys(t)[i] == t[i].0;
      }
    }
  }

  /** Reading a key after `obj[k] = v` gives `v` for `k` and the old value for every other key. */
  lemma {:induction false} GetAssign<V>(es: seq<(string, V)>, k: string, v: V, k': string)
    ensures Get(Assign(es, k, v), k') == if k' == k then Some(v) else Get(es, k')
  {
    if es != [] && es[0].0 != k {
      GetAssign(es[1..], k, v, k');
    }
  }

  /** `delete obj[k]`. */
  function Remove<V>(es: seq<(string, V)>, k: string): (r: seq<(string, V)>)
    ensures forall i :: 0 <= i < |r| ==> r[i] in es && r[i].0 != k
    ensures forall i :: 0 <= i < |es| && es[i].0 != k ==> es[i] in r
    ensures |r| <= |es|
  {
    if es == [] then []
    else if es[0].0 == k then Remove(es[1..], k)
    else [es[0]] + Remove(es[1..], k)
  }

  /** After `delete obj[k]`, `k` reads as absent and every other key reads as before. */
  lemma {:induction false} GetRemove<V>(es: seq<(string, V)>, k: string, k': string)
    ensures Get(Remove(es, k), k') == if k' == k then None else Get(es, k')
  {
    if es != [] {
      GetRemove(es[1..], k, k');
    }
  }

  lemma {:induction false} RemoveDistinct<V>(es: seq<(string, V)>, k: string)
    requires DistinctKeys(es)
    ensures DistinctKeys(Remove(es, k))
  {
    if es != [] {
      RemoveDistinct(es[1..], k);
      var t := Remove(es[1..], k);
      forall i | 0 <= i < |t| ensures t[i].0 != es[0].0 {
        var j :| 0 <= j < |es[1..]| && es[1..][j] == t[i];
        assert es[j + 1] == t[i];
      }
    }
  }

  /** `{...a, ...b}`: every property of `b`, in order, assigned into a copy of `a`. */
  function Spread<V>(a: seq<(string, V)>, b: seq<(string, V)>): (r: seq<(string, V)>)
    ensures |r| >= |a| && Keys(r)[..|a|] == Keys(a)
    ensures forall k :: k in Keys(r) <==> k in Keys(a) || k in Keys(b)
    decreases |b|
  {
    if b == [] then a else Spread(Assign(a, b[0].0, b[0].1), b[1..])
  }

  /**
   * `entries.map(([k, x]) => [k, f(k, x)])` with a callback that may throw: the entries are mapped
   * in order, and the first entry whose callback throws decides the error.
   */
  function MapEntries<X, Y, E>(es: seq<(string, X)>, f: (string, X) -> Result<Y, E>): (r: Result<seq<(string, Y)>, E>)
    ensures r.Ok? ==> |r.value| == |es|
  {
    if es == [] then Ok([])
    else
      match f(es[0].0, es[0].1)
      case Err(e) => Err(e)
      case Ok(first) =>
        match MapEntries(es[1..], f)
        case Err(e) => Err(e)
        case Ok(rest) => Ok([(es[0].0, first)] + rest)
  }

  /** A successful `map` keeps every key in its place and holds each callback's value. */
  lemma {:induction false} MapEntriesOk<X, Y, E>(es: seq<(string, X)>, f: (string, X) -> Result<Y, E>)
    requires MapEntries(es, f).Ok?
    ensures var r := MapEntries(es, f).value;
      Keys(r) == Keys(es) &&
      forall i :: 0 <= i < |es| ==> r[i].0 == es[i].0 && f(es[i].0, es[i].1) == Ok(r[i].1)
  {
    if es != [] {
      var r := MapEntries(es, f).value;
      var tail := es[1..];
      MapEntriesOk(tail, f);
      forall i | 0 < i < |es| ensures r[i].0 == es[i].0 && f(es[i].0, es[i].1) == Ok(r[i].1) {
        assert es[i] == tail[i - 1];
      }
    }
  }

  /** The `map` succeeds exactly when no callback throws. */
  lemma {:induction false} MapEntriesOkIff<X, Y, E>(es: seq<(string, X)>, f: (string, X) -> Result<Y, E>)
    ensures MapEntries(es, f).Ok? <==> forall i :: 0 <= i < |es| ==> f(es[i].0, es[i].1).Ok?
  {
    if es != [] {
      var tail := es[1..];
      MapEntriesOkIff(tail, f);
      assert forall i :: 0 < i < |es| ==> es[i] == tail[i - 1];
    }
  }

  /** Entry `i` is the first whose callback throws, and it throws `e`. */
  ghost predicate FirstFailure<X, Y, E>(es: seq<(string, X)>, f: (string, X) -> Result<Y, E>, i: int, e: E) {
    && 0 <= i < |es|
    && f(es[i].0, es[i].1) == Err(e)
    && forall j :: 0 <= j < i ==> f(es[j].0, es[j].1).Ok?
  }

  /** A failed `map` throws the error of the first entry whose callback throws. */
  lemma {:induction false} MapEntriesErr<X, Y, E>(es: seq<(string, X)>, f: (string, X) -> Result<Y, E>)
    requires MapEntries(es, f).Err?
    ensures exists i :: FirstFailure(es, f, i, MapEntries(es, f).error)
  {
    var e := MapEntries(es, f).error;
    if f(es[0].0, es[0].1).Err? {
      assert FirstFailure(es, f, 0, e);
    } else {
      var tail := es[1..];
      MapEntriesErr(tail, f);
      var i :| FirstFailure(tail, f, i, e);
      assert forall j :: 0 < j <= i + 1 ==> es[j] == tail[j - 1];
      assert FirstFailure(es, f, i + 1, e);
    }
  }

  /** When entry `i` is the first whose callback throws, the `map` throws its error. */
  lemma {:induction false} FirstFailureDecides<X, Y, E>(es: seq<(string, X)>, f: (string, X) -> Result<Y, E>, i: int, e: E)
    requires FirstFailure(es, f, i, e)
    ensures MapEntries(es, f) == Err(e)
  {
    if i > 0 {
      var tail := es[1..];
      assert forall j :: 0 <= j < i - 1 ==> tail[j] == es[j + 1];
      assert tail[i - 1] == es[i];
      FirstFailureDecides(tail, f, i - 1, e);
    }
  }

  /** When every callback returns, the `map` holds each key with its callback's value. */
  lemma {:induction false} AllReturnDecides<X, Y, E>(es: seq<(string, X)>, f: (string, X) -> Result<Y, E>, r: seq<(string, Y)>)
    requires |r| == |es|
    requires forall i :: 0 <= i < |es| ==> r[i].0 == es[i].0 && f(es[i].0, es[i].1) == Ok(r[i].1)
    ensures MapEntries(es, f) == Ok(r)
  {
    if es != [] {
      assert forall i :: 0 <= i < |es| - 1 ==> es[1..][i] == es[i + 1] && r[1..][i] == r[i + 1];
      AllReturnDecides(es[1..], f, r[1..]);
      assert r == [(es[0].0, r[0].1)] + r[1..];
    }
  }

  /** The keys of a non-empty object are its first key and the keys of the rest. */
  lemma KeysCons<V>(b: seq<(string, V)>, k: string)
    requires b != []
    ensures k in Keys(b) <==> k == b[0].0 || k in Keys(b[1..])
  {
    assert Keys(b) == [b[0].0] + Keys(b[1..]);
  }

  /** A spread object reads a key from `b` when `b` has it, and from `a` otherwise. */
  lemma {:induction false} GetSpread<V>(a: seq<(string, V)>, b: seq<(string, V)>, k: string)
    requires DistinctKeys(b)
    ensures Get(Spread(a, b), k) == if k in Keys(b) then Get(b, k) else Get(a, k)
    decreases |b|
  {
    if b != [] {
      var a' := Assign(a, b[0].0, b[0].1);
      assert DistinctKeys(b[1..]);
      GetSpread(a', b[1..], k);
      GetAssign(a, b[0].0, b[0].1, k);
      KeysCons(b, k);
    }
  }
}

/** A FIFO that keeps only the most recent `n` items: the log tail and the crash history. */
module Bounded {

  /** The last `n` items of `s` (all of them when there are fewer). */
  function Tail<T>(s: seq<T>, n: nat): (r: seq<T>)
    ensures |r| == if |s| <= n then |s| else n
  {
    if |s| <= n then s else s[|s| - n..]
  }

  /** `a.push(x); if (a.length > n) a.shift()`. */
  function PushBounded<T>(a: seq<T>, x: T, n: nat): (r: seq<T>)
    ensures |r| <= |a| + 1 && r == (a + [x])[|a| + 1 - |r|..]
    ensures |a| < n ==> r == a + [x]
    ensures |a| <= n ==> |r| <= n
    ensures n > 0 ==> |r| > 0 && r[|r| - 1] == x
  {
    var pushed := a + [x];
    if |pushed| > n then pushed[1..] else pushed
  }

  /** Pushing onto the tail of a history gives the tail of the extended history: the bounded
      buffer always holds the newest `n` items, oldest first, and drops the oldest first. */
  lemma PushBoundedTail<T>(all: seq<T>, x: T, n: nat)
    requires n > 0
    ensures PushBounded(Tail(all, n), x, n) == Tail(all + [x], n)
    ensures |Tail(all + [x], n)| <= n && Tail(all + [x], n)[|Tail(all + [x], n)| - 1] == x
  {
    var t := Tail(all, n);
    var e := all + [x];
    if |all| < n {
      assert Tail(e, n) == e;
    } else {
      assert t == all[|all| - n..];
      assert (t + [x])[1..] == e[|e| - n..];
    }
  }
}

/** The names of the three log levels shared by both loggers. */
module LogLevels {
  datatype LogLevel = Debug | Info | Error

  function Name(l: LogLevel): string {
    match l
    case Debug => "debug"
    case Info => "info"
    case Error => "error"
  }
}
