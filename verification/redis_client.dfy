/** The shared Redis client: the durable key-value store every service reads and
    writes, and the client's reconnect back-off rule.

    Each store operation takes a `fault` flag that stands for the operation
    throwing (connection lost, timeout); a faulty operation changes nothing.
    Expiry (the `setEx` TTL argument) is not modelled: a key stays until deleted. */
module RedisClient {
  import opened Wrappers
  import opened Records
  import opened Text

  datatype StoreError = Unavailable

  // ----- Key order -------------------------------------------------------------

  /** Lexicographic order on keys, used as the order in which `KEYS` lists them. */
  predicate LexLe(a: string, b: string)
    decreases |a|
  {
    a == [] || (b != [] && (a[0] < b[0] || (a[0] == b[0] && LexLe(a[1..], b[1..]))))
  }

  lemma {:induction false} LexLeTotal(a: string, b: string)
    ensures LexLe(a, b) || LexLe(b, a)
    decreases |a|
  {
    if a != [] && b != [] && a[0] == b[0] {
      LexLeTotal(a[1..], b[1..]);
    }
  }

  lemma {:induction false} LexLeAntisymmetric(a: string, b: string)
    requires LexLe(a, b) && LexLe(b, a)
    ensures a == b
    decreases |a|
  {
    if a != [] {
      LexLeAntisymmetric(a[1..], b[1..]);
      assert a == [a[0]] + a[1..];
      assert b == [b[0]] + b[1..];
    }
  }

  lemma {:induction false} LexLeTransitive(a: string, b: string, c: string)
    requires LexLe(a, b) && LexLe(b, c)
    ensures LexLe(a, c)
    decreases |a|
  {
    if a != [] && a[0] == b[0] && b[0] == c[0] {
      LexLeTransitive(a[1..], b[1..], c[1..]);
    }
  }

  predicate IsLeast(m: string, s: set<string>)
  {
    m in s && forall y :: y in s ==> LexLe(m, y)
  }

  lemma {:induction false} LeastExists(s: set<string>)
    requires s != {}
    ensures exists m :: IsLeast(m, s)
    decreases |s|
  {
    var x :| x in s;
    if s != {x} {
      LeastExists(s - {x});
      var m :| IsLeast(m, s - {x});
      LexLeTotal(x, m);
      if LexLe(x, m) {
        forall y | y in s ensures LexLe(x, y) {
          if y != x { LexLeTransitive(x, m, y); }
          else { LexLeTotal(x, x); }
        }
        assert IsLeast(x, s);
      } else {
        assert IsLeast(m, s);
      }
    } else {
      LexLeTotal(x, x);
      assert IsLeast(x, s);
    }
  }

  lemma LeastUnique(s: set<string>)
    ensures forall m, n :: IsLeast(m, s) && IsLeast(n, s) ==> m == n
  {
    forall m, n | IsLeast(m, s) && IsLeast(n, s) ensures m == n {
      LexLeAntisymmetric(m, n);
    }
  }

  /** The lexicographically least key of a non-empty set. */
  function Least(s: set<string>): (m: string)
    requires s != {}
    ensures IsLeast(m, s)
  {
    LeastExists(s);
    LeastUnique(s);
    var m :| IsLeast(m, s);
    m
  }

  /** The keys of `s`, each once, in lexicographic order. */
  function SortedKeys(s: set<string>): (r: seq<string>)
    ensures |r| == |s|
    ensures forall k :: k in r <==> k in s
    decreases |s|
  {
    if s == {} then []
    else
      var m := Least(s);
      [m] + SortedKeys(s - {m})
  }

  /** The keys `KEYS <prefix>*` reports. */
  function KeysWithPrefix(data: map<string, Value>, prefix: string): (r: seq<string>)
    ensures forall k :: k in r <==> k in data && prefix <= k
  {
    SortedKeys(set k | k in data && prefix <= k)
  }

  function Lookup(data: map<string, Value>, key: string): Option<Value>
  {
    if key in data then Some(data[key]) else None
  }

  // ----- The store -------------------------------------------------------------

  class KeyValueStore {
    var data: map<string, Value>

    /** A client attaches to a server whose keys outlive any one process: it sees
        whatever the server already holds. */
    constructor (initial: map<string, Value>)
      ensures data == initial
    {
      data := initial;
    }

    /** `GET key`: the value, or `None` for a missing key. */
    method Get(key: string, fault: bool) returns (r: Result<Option<Value>, StoreError>)
      ensures fault ==> r == Failure(Unavailable)
      ensures !fault ==> r == Success(Lookup(data, key))
    {
      if fault {
        return Failure(Unavailable);
      }
      r := Success(Lookup(data, key));
    }

    /** `SETEX key ttl value`. */
    method SetEx(key: string, value: Value, fault: bool) returns (r: Result<(), StoreError>)
      modifies this
      ensures r == if fault then Failure(Unavailable) else Success(())
      ensures data == if fault then old(data) else old(data)[key := value]
    {
      if fault {
        return Failure(Unavailable);
      }
      data := data[key := value];
      r := Success(());
    }

    /** `DEL key...`. */
    method Del(keys: set<string>, fault: bool) returns (r: Result<(), StoreError>)
      modifies this
      ensures r == if fault then Failure(Unavailable) else Success(())
      ensures data == if fault then old(data) else old(data) - keys
    {
      if fault {
        return Failure(Unavailable);
      }
      data := data - keys;
      r := Success(());
    }

    /** `KEYS <prefix>*`. */
    method Keys(prefix: string, fault: bool) returns (r: Result<seq<string>, StoreError>)
      ensures fault ==> r == Failure(Unavailable)
      ensures !fault ==> r.Success? && forall k :: k in r.value <==> k in data && prefix <= k
      ensures !fault ==> r.value == KeysWithPrefix(data, prefix)
    {
      if fault {
        return Failure(Unavailable);
      }
      r := Success(KeysWithPrefix(data, prefix));
    }
  }

  // ----- Reconnect back-off ----------------------------------------------------

  const MaxRetries: nat := 10
  const RetryStepMs: nat := 100
  const RetryCapMs: nat := 3000

  /** The socket's `reconnectStrategy`: give up after ten retries, otherwise wait
      100 ms per retry, capped at 3000 ms. */
  function ReconnectStrategy(retries: nat): (r: Result<nat, string>)
    ensures r.Failure? <==> retries > MaxRetries
    ensures r.Failure? ==> r.error == "Max retries reached"
    ensures r.Success? ==> r.value <= RetryCapMs
    ensures r.Success? ==> r.value == retries * RetryStepMs <= 1000
  {
    if retries > MaxRetries then Failure("Max retries reached")
    else Success(Min(retries * RetryStepMs, RetryCapMs))
  }

  /** More retries never mean a shorter wait. */
  lemma ReconnectMonotone(a: nat, b: nat)
    requires a <= b <= MaxRetries
    ensures ReconnectStrategy(a).value <= ReconnectStrategy(b).value
  {
  }
}
