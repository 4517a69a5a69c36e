/**
 * Values shared by every part of the model: failure-carrying results,
 * the loosely typed metadata records that travel with chunks and
 * passages, Python's integer formatting, and the configuration constants
 * of the service.
 */
module Common {

  datatype Option<T> = None | Some(value: T) {
    function GetOr(default: T): T {
      match this
      case Some(v) => v
      case None => default
    }
  }

  /** An operation that either succeeds or raises an exception with a message. */
  datatype Result<T> = Ok(value: T) | Err(error: string)

  /** A state-changing operation that either completes or raises with a message. */
  datatype Outcome = Success | Failure(error: string)

  /** A metadata value: the records written by the upload path hold strings and integers. */
  datatype Value = Str(s: string) | Int(i: int)

  /** A metadata dictionary. */
  type Metadata = map<string, Value>

  /** `metadata.get(key)` */
  function Get(m: Metadata, key: string): (r: Option<Value>)
    ensures r.Some? <==> key in m
    ensures key in m ==> r.value == m[key]
  {
    if key in m then Some(m[key]) else None
  }

  /** `metadata.get(key, default)` */
  function GetOr(m: Metadata, key: string, default: Value): (r: Value)
    ensures key in m ==> r == m[key]
    ensures key !in m ==> r == default
  {
    Get(m, key).GetOr(default)
  }

  /** `metadata.get(key, default)` where the caller uses the value as an integer. */
  function GetInt(m: Metadata, key: string, default: int): int {
    if key in m && m[key].Int? then m[key].i else default
  }

  function DigitChar(d: nat): char
    requires d < 10
  {
    "0123456789"[d]
  }

  /** Python's `str(n)` for a non-negative integer. */
  function NatToString(n: nat): (s: string)
    ensures |s| >= 1
    decreases n
  {
    if n < 10 then [DigitChar(n)] else NatToString(n / 10) + [DigitChar(n % 10)]
  }

  /** Python's `str(i)`. */
  function IntToString(i: int): string {
    if i < 0 then "-" + NatToString(-i) else NatToString(i)
  }

  /** How an f-string renders a metadata value. */
  function ValueToString(v: Value): string {
    match v
    case Str(s) => s
    case Int(i) => IntToString(i)
  }

  function Max(a: int, b: int): int { if a < b then b else a }

  function Min(a: int, b: int): int { if a < b then a else b }

  /** Concatenation of a sequence of sequences. */
  function Flatten<T>(xss: seq<seq<T>>): seq<T> {
    if xss == [] then [] else Flatten(xss[..|xss| - 1]) + xss[|xss| - 1]
  }

  lemma FlattenAppend<T>(xss: seq<seq<T>>, yss: seq<seq<T>>)
    ensures Flatten(xss + yss) == Flatten(xss) + Flatten(yss)
    decreases |yss|
  {
    if yss == [] {
      assert xss + yss == xss;
    } else {
      var n := |yss| - 1;
      assert (xss + yss)[..|xss + yss| - 1] == xss + yss[..n];
      FlattenAppend(xss, yss[..n]);
    }
  }

  /** Every element of every piece is in the concatenation. */
  lemma {:induction false} FlattenMember<T>(xss: seq<seq<T>>, i: nat, j: nat)
    requires i < |xss| && j < |xss[i]|
    ensures xss[i][j] in Flatten(xss)
    decreases |xss|
  {
    var n := |xss| - 1;
    if i < n {
      FlattenMember(xss[..n], i, j);
    }
  }

  // ---------------------------------------------------------------------
  // Configuration (backend/app/core/config.py) and the chat mode enum
  // (backend/app/models/schemas.py).
  // ---------------------------------------------------------------------

  const ChunkSize: nat := 500
  const ChunkOverlap: nat := 100
  const TopKChunks: nat := 5

  datatype ChatMode = Normal | Pro
}
