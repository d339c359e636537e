/** The step logger: a message longer than the configured chunk length is
    written as several records, each labelled with its position, when step
    logging is switched on. The slog handler is replaced by the sequence of
    records it would receive; the message is already formatted (fmt.Sprint)
    and, as in Go, its length counts bytes, one character per byte. */
module Logger {
  import Strconv
  import opened Config

  const DebugMode := "debug"
  const InfoMode := "info"
  const ErrorMode := "error"
  const DefaultChunk := 4096
  const EnvStepEnable := "STEP_LOG_ENABLED"
  const EnvStepLength := "STEP_LOG_LENGTH"

  datatype Level = Debug | Info | Error | Warn

  /** One record handed to the slog logger. */
  datatype Record = Record(level: Level, text: string)

  /** getBoolEnv: the default when the variable is empty; otherwise what
      strconv.ParseBool makes of it, its error ignored, so anything it does
      not accept reads as false. */
  function GetBoolEnv(env: Environment, key: string, def: bool): (b: bool)
    ensures Getenv(env, key) == "" ==> b == def
    ensures Getenv(env, key) != "" ==> (b <==> Getenv(env, key) in {"1", "t", "T", "TRUE", "true", "True"})
  {
    var v := Getenv(env, key);
    if v == "" then def
    else
      var (b, _) := Strconv.ParseBool(v);
      b
  }

  /** getIntEnv: the default when the variable is empty or strconv.Atoi's
      value, its error ignored, is not positive; that value otherwise. An
      out-of-range positive number therefore reads as MaxInt64. */
  function GetIntEnv(env: Environment, key: string, def: int): (n: int)
    ensures def > 0 ==> n > 0
    ensures n == def || (n > 0 && n == Strconv.Atoi(Getenv(env, key)).0)
    ensures Getenv(env, key) == "" || Strconv.Atoi(Getenv(env, key)).0 <= 0 ==> n == def
    ensures Getenv(env, key) != "" && Strconv.Atoi(Getenv(env, key)).0 > 0 ==> n == Strconv.Atoi(Getenv(env, key)).0
  {
    var v := Getenv(env, key);
    if v == "" then def
    else
      var (n, _) := Strconv.Atoi(v);
      if n <= 0 then def else n
  }

  /** The number of chunks: the length divided by the chunk length, plus one
      for a remainder. */
  function ChunkCount(length: nat, size: int): (c: nat)
    requires size > 0
    ensures length == 0 <==> c == 0
    ensures c > 0 ==> (c - 1) * size < length <= c * size
  {
    length / size + (if length % size > 0 then 1 else 0)
  }

  /** The chunks, in order: `size` characters at a time from the front, the
      last one holding what remains. */
  function Chunks(message: string, size: int): (cs: seq<string>)
    requires size > 0
    decreases |message|
  {
    if message == [] then []
    else if |message| <= size then [message]
    else [message[..size]] + Chunks(message[size..], size)
  }

  /** The prefix of chunk number n (counted from 1): "prefix [n]". */
  function Label(prefix: string, n: nat): string {
    prefix + " [" + Strconv.NatToDecimal(n) + "]"
  }

  /** logChunk: a known level gets "prefix :- message" at that level; any
      other level gets a warning that names the level and carries the
      message without its prefix. */
  function LogChunk(level: string, prefix: string, message: string): (r: Record)
    ensures r.level == Debug <==> level == DebugMode
    ensures r.level == Info <==> level == InfoMode
    ensures r.level == Error <==> level == ErrorMode
    ensures !r.level.Warn? ==> r.text == prefix + " :- " + message
    ensures r.level.Warn? ==> r.text == "Unhandled log level: " + level + ". Message: " + message
  {
    var msg := prefix + " :- " + message;
    if level == DebugMode then Record(Debug, msg)
    else if level == InfoMode then Record(Info, msg)
    else if level == ErrorMode then Record(Error, msg)
    else Record(Warn, "Unhandled log level: " + level + ". Message: " + message)
  }

  /** StepLogWithContext: one record holding the whole message when step
      logging is off or the message fits in one chunk; otherwise one record
      per chunk, in order, labelled "prefix [1]", "prefix [2]", ... */
  method StepLog(env: Environment, level: string, prefix: string, message: string) returns (out: seq<Record>)
    ensures var cs := Chunks(message, GetIntEnv(env, EnvStepLength, DefaultChunk));
            if |cs| <= 1 || !GetBoolEnv(env, EnvStepEnable, false) then out == [LogChunk(level, prefix, message)]
            else
              && |out| == |cs|
              && forall i :: 0 <= i < |cs| ==> out[i] == LogChunk(level, Label(prefix, i + 1), cs[i])
  {
    var isEnabled := GetBoolEnv(env, EnvStepEnable, false);
    var logLength := GetIntEnv(env, EnvStepLength, DefaultChunk);
    var length := |message|;
    var chunks := length / logLength;
    if length % logLength > 0 {
      chunks := chunks + 1;
    }
    ChunksCount(message, logLength);
    if chunks <= 1 || !isEnabled {
      return [LogChunk(level, prefix, message)];
    }
    out := LogChunks(level, prefix, message, logLength, chunks);
    LabelledAt(level, prefix, Chunks(message, logLength), chunks);
  }

  /** The loop of StepLogWithContext: chunk i is the slice from i * logLength
      to (i + 1) * logLength, cut at the end of the message, and is logged
      under the label i + 1. */
  method LogChunks(level: string, prefix: string, message: string, logLength: int, chunks: nat)
    returns (out: seq<Record>)
    requires logLength > 0 && chunks == |Chunks(message, logLength)|
    ensures out == Labelled(level, prefix, Chunks(message, logLength), chunks)
  {
    ghost var cs := Chunks(message, logLength);
    var length := |message|;
    out := [];
    var i := 0;
    while i < chunks
      invariant 0 <= i <= chunks
      invariant out == Labelled(level, prefix, cs, i)
    {
      ChunkAt(message, logLength, i);
      OffsetIsProduct(i, logLength);
      OffsetIsProduct(i + 1, logLength);
      var end := (i + 1) * logLength;
      if end > length {
        end := length;
      }
      var chunk := message[i * logLength..end];
      out := out + [LogChunk(level, Label(prefix, i + 1), chunk)];
      i := i + 1;
    }
  }

  /** The records of the first n chunks, chunk k labelled with k + 1. */
  function Labelled(level: string, prefix: string, cs: seq<string>, n: nat): (rs: seq<Record>)
    requires n <= |cs|
    ensures |rs| == n
  {
    if n == 0 then [] else Labelled(level, prefix, cs, n - 1) + [LogChunk(level, Label(prefix, n), cs[n - 1])]
  }

  lemma {:induction false} LabelledAt(level: string, prefix: string, cs: seq<string>, n: nat)
    requires n <= |cs|
    ensures forall k :: 0 <= k < n ==> Labelled(level, prefix, cs, n)[k] == LogChunk(level, Label(prefix, k + 1), cs[k])
  {
    if n > 0 {
      LabelledAt(level, prefix, cs, n - 1);
    }
  }

  // ---------------------------------------------------------------------
  // Properties of the chunking

  /** The chunk length the logger uses is always positive. */
  lemma ChunkLengthPositive(env: Environment)
    ensures GetIntEnv(env, EnvStepLength, DefaultChunk) > 0
  {
  }

  lemma MulMonotone(a: nat, b: nat, size: int)
    requires a <= b && size > 0
    ensures a * size <= b * size
  {
  }

  /** ChunkCount is the only count whose chunks cover the length with the
      last one non-empty. */
  lemma ChunkCountUnique(length: nat, size: int, c: nat)
    requires size > 0 && length > 0 && (c - 1) * size < length <= c * size
    ensures c == ChunkCount(length, size)
  {
    var d := ChunkCount(length, size);
    if c < d {
      MulMonotone(c, d - 1, size);
    } else if d < c {
      MulMonotone(d, c - 1, size);
    }
  }

  /** Taking one full chunk off the front leaves one chunk fewer. */
  lemma ChunkCountStep(length: nat, size: int)
    requires size > 0 && length > size
    ensures ChunkCount(length, size) == 1 + ChunkCount(length - size, size)
  {
    var c := ChunkCount(length - size, size);
    assert c * size < length <= (c + 1) * size;
    ChunkCountUnique(length, size, c + 1);
  }

  /** There are as many chunks as the logger counts. */
  lemma {:induction false} ChunksCount(message: string, size: int)
    requires size > 0
    ensures |Chunks(message, size)| == ChunkCount(|message|, size)
    decreases |message|
  {
    if |message| > size {
      ChunksCount(message[size..], size);
      ChunkCountStep(|message|, size);
    } else if message != [] {
      ChunkCountUnique(|message|, size, 1);
    }
  }

  /** Where chunk i starts: i chunk lengths in. */
  function Offset(i: nat, size: nat): nat {
    if i == 0 then 0 else Offset(i - 1, size) + size
  }

  lemma {:induction false} OffsetIsProduct(i: nat, size: nat)
    ensures Offset(i, size) == i * size
  {
    if i > 0 {
      OffsetIsProduct(i - 1, size);
      assert (i - 1) * size + size == i * size;
    }
  }

  /** Chunk i runs from Offset(i) up to one chunk length further, cut at the
      end of the message. */
  lemma {:induction false} ChunkAt(message: string, size: nat, i: nat)
    requires size > 0 && i < |Chunks(message, size)|
    ensures Offset(i, size) < |message|
    ensures Chunks(message, size)[i]
            == message[Offset(i, size)..if Offset(i, size) + size > |message| then |message| else Offset(i, size) + size]
    decreases |message|
  {
    if i > 0 {
      var rest := message[size..];
      ChunkAt(rest, size, i - 1);
      var lo := Offset(i - 1, size);
      var hi := if lo + size > |rest| then |rest| else lo + size;
      assert Chunks(message, size)[i] == Chunks(rest, size)[i - 1];
      SliceOfRest(message, size, lo, hi);
    }
  }

  lemma SliceOfRest(s: string, a: nat, lo: nat, hi: nat)
    requires a <= |s| && lo <= hi <= |s| - a
    ensures s[a..][lo..hi] == s[a + lo..a + hi]
  {
  }

  /** Every chunk is non-empty and at most `size` long, and every chunk but
      the last is exactly `size` long. */
  lemma {:induction false} ChunkLengths(message: string, size: int)
    requires size > 0
    ensures forall k :: 0 <= k < |Chunks(message, size)| ==>
              0 < |Chunks(message, size)[k]| <= size
              && (k + 1 < |Chunks(message, size)| ==> |Chunks(message, size)[k]| == size)
    decreases |message|
  {
    if |message| > size {
      var cs := Chunks(message, size);
      var rest := Chunks(message[size..], size);
      ChunkLengths(message[size..], size);
      assert cs == [message[..size]] + rest;
      forall k | 0 < k < |cs|
        ensures 0 < |cs[k]| <= size && (k + 1 < |cs| ==> |cs[k]| == size)
      {
        assert cs[k] == rest[k - 1];
        assert 0 < |rest[k - 1]| <= size && (k < |rest| ==> |rest[k - 1]| == size);
      }
    }
  }

  /** The strings joined end to end. */
  function Concat(cs: seq<string>): string
    decreases |cs|
  {
    if cs == [] then "" else cs[0] + Concat(cs[1..])
  }

  /** The chunks concatenate, in order, to the whole message. */
  lemma {:induction false} ChunksConcat(message: string, size: int)
    requires size > 0
    ensures Concat(Chunks(message, size)) == message
    decreases |message|
  {
    if |message| > size {
      var rest := Chunks(message[size..], size);
      ChunksConcat(message[size..], size);
      assert ([message[..size]] + rest)[1..] == rest;
      assert message[..size] + message[size..] == message;
    } else if message != [] {
      assert [message][1..] == [];
    }
  }

  /** Chunk labels are pairwise distinct. */
  lemma LabelsDistinct(prefix: string, a: nat, b: nat)
    requires a != b
    ensures Label(prefix, a) != Label(prefix, b)
  {
    var p := prefix + " [";
    if Label(prefix, a) == Label(prefix, b) {
      var la := Label(prefix, a);
      var lb := Label(prefix, b);
      assert la[|p|..|la| - 1] == Strconv.NatToDecimal(a);
      assert lb[|p|..|lb| - 1] == Strconv.NatToDecimal(b);
      Strconv.NatToDecimalInjective(a, b);
    }
  }

  /** Under an unknown level the chunk label is lost: the warning text
      depends only on the level and the chunk. */
  lemma UnknownLevelDropsLabel(level: string, p1: string, p2: string, message: string)
    requires level !in {DebugMode, InfoMode, ErrorMode}
    ensures LogChunk(level, p1, message) == LogChunk(level, p2, message)
  {
  }
}
