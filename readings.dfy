/**
 * The loop both aggregation scripts run over a file's lines: each line
 * is skipped, contributes a `(size, latency)` pair, or makes `float`
 * raise `ValueError`, which ends the script.
 */
module LineReadings {
  import opened Wrappers
  import opened Effects

  /** What one line contributes: nothing, a latency under its key (a size or a message id), or an error. */
  datatype Reading = Skipped | Time(key: int, ms: real) | NotANumber

  /**
   * The pairs appended, in order, or the `ValueError` that stops the
   * script at the first line whose time is not a number.
   */
  function Collect(rs: seq<Reading>): Result<seq<(int, real)>, Error>
  {
    if rs == [] then Success([])
    else
      match Collect(rs[..|rs| - 1])
      case Failure(e) => Failure(e)
      case Success(pairs) =>
        match rs[|rs| - 1]
        case Skipped => Success(pairs)
        case NotANumber => Failure(ValueError)
        case Time(key, ms) => Success(pairs + [(key, ms)])
  }

  /** The pairs the readings hold, whether or not a later reading fails. */
  function Pairs(rs: seq<Reading>): seq<(int, real)>
  {
    if rs == [] then []
    else Pairs(rs[..|rs| - 1]) + (if rs[|rs| - 1].Time? then [(rs[|rs| - 1].key, rs[|rs| - 1].ms)] else [])
  }

  /** One more line: what the loop does with the `k`-th reading. */
  lemma CollectNext(rs: seq<Reading>, k: nat)
    requires k < |rs| && Collect(rs[..k]).Success?
    ensures Collect(rs[..k + 1]) == match rs[k]
      case Skipped => Collect(rs[..k])
      case NotANumber => Failure(ValueError)
      case Time(key, ms) => Success(Collect(rs[..k]).value + [(key, ms)])
  {
    assert rs[..k + 1][..k] == rs[..k];
  }

  /** Once a line fails to parse, the script has stopped with that error. */
  lemma {:induction false} CollectStops(rs: seq<Reading>, k: nat)
    requires k <= |rs| && Collect(rs[..k]).Failure?
    ensures Collect(rs) == Collect(rs[..k])
    decreases |rs|
  {
    if k < |rs| {
      var init := rs[..|rs| - 1];
      assert init[..k] == rs[..k];
      CollectStops(init, k);
    } else {
      assert rs[..k] == rs;
    }
  }

  /**
   * The loop fails, with `ValueError`, exactly when some line's time is
   * not a number; otherwise it yields every pair the lines hold, in order.
   */
  lemma {:induction false} CollectSpec(rs: seq<Reading>)
    ensures Collect(rs).Failure? <==> exists k :: 0 <= k < |rs| && rs[k].NotANumber?
    ensures Collect(rs).Failure? ==> Collect(rs).error == ValueError
    ensures Collect(rs).Success? ==> Collect(rs).value == Pairs(rs)
    decreases |rs|
  {
    if rs != [] {
      var init := rs[..|rs| - 1];
      CollectSpec(init);
      if Collect(init).Failure? {
        var k :| 0 <= k < |init| && init[k].NotANumber?;
        assert rs[k].NotANumber?;
      } else if !rs[|rs| - 1].NotANumber? {
        forall k | 0 <= k < |rs| ensures !rs[k].NotANumber? {
          if k < |init| { assert rs[k] == init[k]; }
        }
      }
    }
  }

  /** A skipped line changes nothing wherever it stands. */
  lemma {:induction false} CollectSkip(a: seq<Reading>, b: seq<Reading>)
    ensures Collect(a + [Skipped] + b) == Collect(a + b)
    decreases |b|
  {
    if b == [] {
      assert (a + [Skipped] + b)[..|a|] == a;
      assert a + b == a;
    } else {
      var b' := b[..|b| - 1];
      CollectSkip(a, b');
      assert (a + [Skipped] + b)[..|a + [Skipped] + b| - 1] == a + [Skipped] + b';
      assert (a + b)[..|a + b| - 1] == a + b';
    }
  }

  // ------------------------------------------------------------- the files

  /** A file name and its text, as `os.listdir` and `open` give them. */
  datatype LogFile = LogFile(name: string, text: string)

  /**
   * What a script takes from one file: the key it files the pairs under
   * (`None` for a file it skips), and the file's pairs or the error
   * reading them.
   */
  datatype FileRead<K> = FileRead(key: Option<K>, pairs: Result<seq<(int, real)>, Error>)

  /** Some file read has this key. */
  ghost predicate Named<K>(rs: seq<FileRead<K>>, key: K)
  {
    exists i :: 0 <= i < |rs| && rs[i].key == Some(key)
  }

  /** Every pair read from the files with this key, in order. */
  function PairsFor<K(==)>(rs: seq<FileRead<K>>, key: K): seq<(int, real)>
  {
    if rs == [] then []
    else
      var r := rs[|rs| - 1];
      PairsFor(rs[..|rs| - 1], key) + (if r.key == Some(key) && r.pairs.Success? then r.pairs.value else [])
  }

  /** No file the script reads has a line whose latency is not a number. */
  ghost predicate Readable<K>(rs: seq<FileRead<K>>)
  {
    forall i :: 0 <= i < |rs| && rs[i].key.Some? ==> rs[i].pairs.Success?
  }

  lemma {:induction false} PairsForAbsent<K>(rs: seq<FileRead<K>>, key: K)
    requires !Named(rs, key)
    ensures PairsFor(rs, key) == []
    decreases |rs|
  {
    if rs != [] {
      var init := rs[..|rs| - 1];
      PairsForAbsent(init, key);
      assert rs[|rs| - 1].key != Some(key);
    }
  }

  /** A file with another key adds nothing to a key's pairs. */
  lemma PairsForOther<K>(rs: seq<FileRead<K>>, key: K)
    requires rs != [] && rs[|rs| - 1].key != Some(key)
    ensures PairsFor(rs, key) == PairsFor(rs[..|rs| - 1], key)
  {
    var p := PairsFor(rs[..|rs| - 1], key);
    assert p + [] == p;
  }

  lemma NamedSnoc<K>(rs: seq<FileRead<K>>, key: K)
    requires rs != []
    ensures Named(rs, key) <==> Named(rs[..|rs| - 1], key) || rs[|rs| - 1].key == Some(key)
  {
    var init := rs[..|rs| - 1];
    if Named(rs, key) {
      var i :| 0 <= i < |rs| && rs[i].key == Some(key);
      if i < |init| { assert init[i] == rs[i]; }
    }
    if Named(init, key) {
      var i :| 0 <= i < |init| && init[i].key == Some(key);
      assert rs[i] == init[i];
    }
  }

  lemma ReadableSnoc<K>(rs: seq<FileRead<K>>)
    requires rs != []
    ensures Readable(rs) <==> (Readable(rs[..|rs| - 1])
      && (rs[|rs| - 1].key.Some? ==> rs[|rs| - 1].pairs.Success?))
  {
    var init := rs[..|rs| - 1];
    if Readable(rs) {
      forall i | 0 <= i < |init| && init[i].key.Some? ensures init[i].pairs.Success? {
        assert init[i] == rs[i];
      }
    }
  }
}
