/**
 * What `exec` makes of the chunks read from an execution channel: the read loop
 * `while ($b = fread(...)) $d .= $b;` keeps appending until a read yields a value
 * PHP treats as false, which for a string is "" (end of stream) and also "0".
 */
module Output {
  import opened Transport

  /** The plain concatenation of all chunks, in order. */
  function Concat(chunks: seq<string>): string
  {
    if chunks == [] then "" else chunks[0] + Concat(chunks[1..])
  }

  /** The output `exec` accumulates from a channel that yields `chunks`. */
  function Collect(chunks: seq<string>): string
  {
    if chunks == [] || Falsy(chunks[0]) then "" else chunks[0] + Collect(chunks[1..])
  }

  /** No chunk is falsy. */
  predicate AllTruthy(chunks: seq<string>)
  {
    forall i :: 0 <= i < |chunks| ==> !Falsy(chunks[i])
  }

  /**
   * Reference characterisation: if the first falsy chunk is at index k (or there
   * is none and k is the length), the output is exactly the concatenation of the
   * chunks before k.
   */
  lemma {:induction false} CollectStopsAtFirstFalsy(chunks: seq<string>, k: nat)
    requires k <= |chunks|
    requires AllTruthy(chunks[..k])
    requires k < |chunks| ==> Falsy(chunks[k])
    ensures Collect(chunks) == Concat(chunks[..k])
  {
    if k == 0 {
      assert chunks[..k] == [];
    } else {
      assert chunks[..k][0] == chunks[0];
      assert !Falsy(chunks[0]);
      assert chunks[1..][..k - 1] == chunks[..k][1..];
      CollectStopsAtFirstFalsy(chunks[1..], k - 1);
    }
  }

  /** A channel with no falsy chunk yields all of its text. */
  lemma {:induction false} CollectAllTruthy(chunks: seq<string>)
    requires AllTruthy(chunks)
    ensures Collect(chunks) == Concat(chunks)
  {
    CollectStopsAtFirstFalsy(chunks, |chunks|);
    assert chunks[..|chunks|] == chunks;
  }

  /** Whatever follows the first falsy chunk never reaches the output. */
  lemma {:induction false} CollectIgnoresRest(a: seq<string>, b: string, c: seq<string>)
    requires AllTruthy(a) && Falsy(b)
    ensures Collect(a + [b] + c) == Concat(a)
  {
    var s := a + [b] + c;
    assert s[..|a|] == a;
    assert s[|a|] == b;
    CollectStopsAtFirstFalsy(s, |a|);
  }

  /** The output is always a prefix of the channel's whole text. */
  lemma {:induction false} CollectIsPrefix(chunks: seq<string>)
    ensures Collect(chunks) <= Concat(chunks)
  {
    if chunks != [] && !Falsy(chunks[0]) {
      CollectIsPrefix(chunks[1..]);
    }
  }

  /** One read step of the loop: a truthy chunk is appended, a falsy one ends it. */
  lemma CollectStep(chunks: seq<string>, pos: nat)
    requires pos < |chunks|
    ensures Collect(chunks[pos..]) ==
      if Falsy(chunks[pos]) then "" else chunks[pos] + Collect(chunks[pos + 1..])
  {
  }

  /**
   * The read loop of `exec`: appends chunk after chunk from a fresh channel until
   * a read yields a falsy value.
   */
  method ReadOutput(ch: Channel) returns (d: string)
    requires ch.Valid() && ch.pos == 0
    modifies ch
    ensures d == Collect(ch.chunks)
  {
    d := "";
    while true
      invariant ch.Valid()
      invariant d + Collect(ch.chunks[ch.pos..]) == Collect(ch.chunks)
      modifies ch
      decreases |ch.chunks| - ch.pos
    {
      ghost var p := ch.pos;
      var b := ch.Read();
      if Falsy(b) {
        if p < |ch.chunks| {
          CollectStep(ch.chunks, p);
        } else {
          assert ch.chunks[p..] == [];
        }
        break;
      }
      CollectStep(ch.chunks, p);
      d := d + b;
    }
  }

  /** The output "0" of a command such as `echo -n 0` is lost: `exec` returns "". */
  lemma ZeroChunkIsDropped(rest: seq<string>)
    ensures Collect(["0"] + rest) == ""
  {
  }
}
