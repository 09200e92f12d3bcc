/** Shared vocabulary of the account-lifecycle model: optional values, record
    identifiers, time, JavaScript truthiness of optional strings, the ranges of
    the random values the handlers draw, and the password-hashing primitive. */
module Base {

  datatype Option<+T> = None | Some(value: T)

  /** Primary key of a `user` or `doctor` row. */
  type Id = nat

  /** A point in time or a duration, in milliseconds (JavaScript `Date.now()`). */
  type Millis = int

  /** JavaScript truthiness of an optional request field: `undefined` and `""`
      are falsy, every other string is truthy. */
  predicate Truthy(s: Option<string>)
  {
    s.Some? && s.value != ""
  }

  /** The range of `Math.floor(100000 + Math.random() * 900000)`. */
  predicate IsSixDigit(n: int)
  {
    100000 <= n <= 999999
  }

  /** The shape of `crypto.randomBytes(32).toString("hex")`. */
  predicate IsHexToken(s: string)
  {
    |s| == 64 && forall i :: 0 <= i < |s| ==> s[i] in "0123456789abcdef"
  }

  /** A bcrypt digest, kept symbolic: the salt rounds it was made with and the
      secret it commits to. Equal digests come from equal passwords, which is
      all the handlers rely on; nothing in the model reads `secret` except
      `Compare`, through `Hash`. */
  datatype PasswordHash = Bcrypt(cost: nat, secret: string)

  /** `bcrypt.hash(password, cost)` */
  function Hash(password: string, cost: nat): PasswordHash
  {
    Bcrypt(cost, password)
  }

  /** `bcrypt.compare(password, h)`: re-hash with the digest's own cost. */
  predicate Compare(password: string, h: PasswordHash)
  {
    h == Hash(password, h.cost)
  }

  /** `k` is the least element of `s`. */
  predicate IsLeast(k: Id, s: set<Id>)
  {
    k in s && forall j :: j in s ==> k <= j
  }

  /** The least identifier of a non-empty set. */
  function Least(s: set<Id>): (k: Id)
    requires s != {}
    ensures k in s
    ensures forall j :: j in s ==> k <= j
  {
    LeastExists(s);
    var k :| IsLeast(k, s);
    k
  }

  lemma {:induction false} LeastExists(s: set<Id>)
    requires s != {}
    ensures exists k :: IsLeast(k, s)
  {
    var x :| x in s;
    if s == {x} {
      assert IsLeast(x, s);
    } else {
      LeastExists(s - {x});
      var m :| IsLeast(m, s - {x});
      var k := if x < m then x else m;
      forall j | j in s
        ensures k <= j
      {
        if j != x {
          assert j in s - {x};
        }
      }
      assert IsLeast(k, s);
    }
  }
}
