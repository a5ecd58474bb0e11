/**
 * Shared vocabulary of the model: the Python exceptions the system raises,
 * Option/Result wrappers, Python's insertion-ordered dict, Python list
 * indexing (with negative indices), min/max of a sequence and Python's
 * round() on exact reals.
 */
module Base {

  /** The exception classes that the modelled code raises or lets escape. */
  datatype Error =
    | StitchException
    | ValueError
    | TypeError
    | KeyError
    | IndexError
    | AttributeError

  datatype Option<+T> = None | Some(value: T) {
    function GetOr(default: T): T {
      match this
      case Some(v) => v
      case None => default
    }
  }

  datatype Result<+T> = Ok(value: T) | Err(error: Error) {
    predicate IsFailure() { Err? }

    function PropagateFailure<U>(): Result<U>
      requires Err?
    {
      Err(error)
    }

    function Extract(): T
      requires Ok?
    {
      value
    }
  }

  /**
   * A Python dict: a map together with the order in which its keys were
   * first inserted (iteration order).  Re-assigning a present key keeps its
   * place in the order.
   */
  datatype Dict<K(==), V> = Dict(keys: seq<K>, m: map<K, V>) {
    ghost predicate Valid() {
      && (forall i, j | 0 <= i < j < |keys| :: keys[i] != keys[j])
      && (forall k | k in m :: k in keys)
      && (forall k | k in keys :: k in m)
    }

    function Put(k: K, v: V): (d: Dict<K, V>)
      requires Valid()
      ensures d.Valid()
      ensures d.m == m[k := v]
      ensures k in m ==> d.keys == keys
      ensures k !in m ==> d.keys == keys + [k]
    {
      if k in m then Dict(keys, m[k := v]) else Dict(keys + [k], m[k := v])
    }
  }

  function EmptyDict<K(==), V>(): (d: Dict<K, V>)
    ensures d.Valid() && d.keys == [] && d.m == map[]
  {
    Dict([], map[])
  }

  /** The dict comprehension `{k: f(k) for k in ks}`: later duplicates overwrite. */
  function DictOf<K(==), V>(ks: seq<K>, f: K -> V): (d: Dict<K, V>)
    ensures d.Valid()
    ensures d.m.Keys == set k | k in ks
    ensures forall k | k in d.m :: d.m[k] == f(k)
    decreases |ks|
  {
    if ks == [] then EmptyDict()
    else DictOf(ks[..|ks| - 1], f).Put(ks[|ks| - 1], f(ks[|ks| - 1]))
  }

  /** Python's `s[i]` on a list: negative indices count from the end. */
  function PyIndex<T>(s: seq<T>, i: int): (r: Result<T>)
    ensures r.Ok? <==> -|s| <= i < |s|
    ensures r.Err? ==> r.error == IndexError
    ensures r.Ok? ==> r.value == s[Wrap(i, |s|)]
  {
    if 0 <= i < |s| then Ok(s[i])
    else if -|s| <= i < 0 then Ok(s[i + |s|])
    else Err(IndexError)
  }

  /** The position that a Python index `i` denotes in a list of length `n`. */
  function Wrap(i: int, n: nat): int {
    if i < 0 then i + n else i
  }

  function SeqMin(xs: seq<int>): (m: int)
    requires |xs| > 0
    ensures m in xs
    ensures forall k | 0 <= k < |xs| :: m <= xs[k]
  {
    if |xs| == 1 then xs[0]
    else
      var rest := SeqMin(xs[1..]);
      if xs[0] <= rest then xs[0] else rest
  }

  function SeqMax(xs: seq<int>): (m: int)
    requires |xs| > 0
    ensures m in xs
    ensures forall k | 0 <= k < |xs| :: xs[k] <= m
  {
    if |xs| == 1 then xs[0]
    else
      var rest := SeqMax(xs[1..]);
      if xs[0] >= rest then xs[0] else rest
  }

  /**
   * Python's built-in round() applied to an exact value: the nearest
   * integer, ties going to the even neighbour.
   */
  function Round(x: real): (r: int)
    ensures x - 0.5 <= r as real <= x + 0.5
    ensures (r as real - x == 0.5 || x - r as real == 0.5) ==> r % 2 == 0
  {
    var f := x.Floor;
    var frac := x - f as real;
    if frac < 0.5 then f
    else if frac > 0.5 then f + 1
    else if f % 2 == 0 then f
    else f + 1
  }

  /** Rounding never leaves an interval whose ends are integers. */
  lemma RoundWithin(x: real, lo: int, hi: int)
    requires lo as real <= x <= hi as real
    ensures lo <= Round(x) <= hi
  {
  }

  lemma RoundOfInteger(n: int)
    ensures Round(n as real) == n
  {
    RoundWithin(n as real, n, n);
  }
}
