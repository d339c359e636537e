/** The service configuration read from the environment: string, integer and
    comma-list variables with defaults, and the process-wide configuration
    built on first use. The process environment is a map; an absent
    variable reads as the empty string, as os.Getenv does. */
module Config {
  import opened Wire
  import Strconv
  import opened Text

  type Environment = map<string, string>

  /** os.Getenv. */
  function Getenv(env: Environment, key: string): string {
    if key in env then env[key] else ""
  }

  /** getEnv: the variable when it is non-empty, the default otherwise. */
  function GetEnv(env: Environment, key: string, def: string): (r: string)
    ensures r == Getenv(env, key) || r == def
    ensures r == def <==> Getenv(env, key) == "" || Getenv(env, key) == def
    ensures def != "" ==> r != ""
  {
    var v := Getenv(env, key);
    if v != "" then v else def
  }

  /** getIntEnv: the parsed value when the variable is set and strconv.Atoi
      accepts it, whatever its sign; the default otherwise. */
  function GetIntEnv(env: Environment, key: string, def: int): (r: int)
    ensures Getenv(env, key) == "" ==> r == def
    ensures Getenv(env, key) != "" && !Strconv.Atoi(Getenv(env, key)).1 ==> r == def
    ensures Getenv(env, key) != "" && Strconv.Atoi(Getenv(env, key)).1 ==> r == Strconv.Atoi(Getenv(env, key)).0
  {
    var v := Getenv(env, key);
    if v == "" then def
    else
      var (n, ok) := Strconv.Atoi(v);
      if ok then n else def
  }

  /** Any int64, zero and negatives included, set as decimal text reads back as itself. */
  lemma GetIntEnvReadsBack(env: Environment, key: string, n: int, def: int)
    requires Strconv.MinInt64 <= n <= Strconv.MaxInt64
    ensures GetIntEnv(env[key := Strconv.Itoa(n)], key, def) == n
  {
    Strconv.AtoiItoa(n);
  }

  /** The characters config's trim removes: space and tab only. */
  predicate IsBlank(c: char) {
    c == ' ' || c == '\t'
  }

  /** trim: two index loops, one from each end. */
  method Trim(s: string) returns (r: string)
    ensures r == TrimBy(s, IsBlank)
  {
    var i, j := 0, |s|;
    while i < j && IsBlank(s[i])
      invariant 0 <= i <= j == |s|
      invariant i <= Lead(s, IsBlank)
    {
      LeadScan(s, IsBlank, i);
      i := i + 1;
    }
    LeadScan(s, IsBlank, i);
    while j > i && IsBlank(s[j - 1])
      invariant i <= j <= |s|
      invariant |s| - j <= Trail(s[i..], IsBlank)
    {
      TrailScanFrom(s, IsBlank, i, j);
      j := j - 1;
    }
    TrailScanFrom(s, IsBlank, i, j);
    r := s[i..j];
  }

  /** Each piece trimmed. */
  function TrimAll(ps: seq<string>): (r: seq<string>)
    ensures |r| == |ps|

    decreases |ps|
  {
    if ps == [] then [] else [TrimBy(ps[0], IsBlank)] + TrimAll(ps[1..])
  }

  /** Piece k of the result is piece k of the input, trimmed. */
  lemma {:induction false} TrimAllPieces(ps: seq<string>)
    ensures forall k :: 0 <= k < |ps| ==> TrimAll(ps)[k] == TrimBy(ps[k], IsBlank)
    decreases |ps|
  {
    if ps != [] {
      TrimAllPieces(ps[1..]);
      forall k | 0 < k < |ps|
        ensures TrimAll(ps)[k] == TrimBy(ps[k], IsBlank)
      {
        assert ps[1..][k - 1] == ps[k];
      }
    }
  }

  lemma TrimAllCons(a: string, ps: seq<string>)
    ensures TrimAll([a] + ps) == [TrimBy(a, IsBlank)] + TrimAll(ps)
  {
    assert ([a] + ps)[1..] == ps;
  }

  /** A separator at i closes the piece begun at `start`. */
  lemma SplitTrimStep(s: string, sep: string, start: nat, i: nat, next: nat, out: seq<string>)
    requires |sep| > 0 && start <= i && OccursAt(s, sep, i) && next == i + |sep|
    ensures out + TrimAll(SplitFrom(s, sep, start, i))
            == (out + [TrimBy(s[start..i], IsBlank)]) + TrimAll(SplitFrom(s, sep, next, next))
  {
    var rest := SplitFrom(s, sep, next, next);
    assert SplitFrom(s, sep, start, i) == [s[start..i]] + rest;
    TrimAllCons(s[start..i], rest);
    var t := TrimAll(rest);
    assert out + ([TrimBy(s[start..i], IsBlank)] + t) == (out + [TrimBy(s[start..i], IsBlank)]) + t;
  }

  /** splitTrim: the pieces between the separators, found left to right
      without overlap, each trimmed. Go's loop never ends for an empty
      separator; the only caller passes ",". */
  method SplitTrim(s: string, sep: string) returns (out: seq<string>)
    requires |sep| > 0
    ensures out == TrimAll(Split(s, sep))
  {
    out := [];
    var start: nat := 0;
    var i: nat := 0;
    while i + |sep| <= |s|
      invariant start <= i <= |s|
      invariant out + TrimAll(SplitFrom(s, sep, start, i)) == TrimAll(Split(s, sep))
      decreases |s| - i
    {
      if s[i..i + |sep|] == sep {
        var piece := Trim(s[start..i]);
        var next := i + |sep|;
        SplitTrimStep(s, sep, start, i, next, out);
        out := out + [piece];
        start, i := next, next;
      } else {
        assert SplitFrom(s, sep, start, i) == SplitFrom(s, sep, start, i + 1);
        i := i + 1;
      }
    }
    assert SplitFrom(s, sep, start, i) == [s[start..]];
    var last := Trim(s[start..]);
    out := out + [last];
  }

  /** The non-empty pieces, in order: every non-empty piece is kept as often
      as it occurs, and no empty one. */
  function NonEmpty(ps: seq<string>): (r: seq<string>)
    ensures |r| <= |ps|
    ensures forall k :: 0 <= k < |r| ==> r[k] != ""
    ensures forall x :: x in r <==> x in ps && x != ""
    ensures multiset(r) == multiset(ps)["" := 0]
    decreases |ps|
  {
    if ps == [] then []
    else
      var init, last := ps[..|ps| - 1], ps[|ps| - 1];
      assert ps == init + [last];
      NonEmpty(init) + (if last != "" then [last] else [])
  }

  /** Filtering keeps the order: the non-empty pieces of a concatenation are
      those of the first part followed by those of the second. */
  lemma {:induction false} NonEmptyAppend(a: seq<string>, b: seq<string>)
    ensures NonEmpty(a + b) == NonEmpty(a) + NonEmpty(b)
    decreases |b|
  {
    if b == [] {
      assert a + b == a;
    } else {
      var init, last := b[..|b| - 1], b[|b| - 1];
      assert (a + b)[..|a + b| - 1] == a + init;
      assert (a + b)[|a + b| - 1] == last;
      NonEmptyAppend(a, init);
    }
  }

  /** One more piece scanned: it is kept when it is non-empty. */
  lemma NonEmptyStep(ps: seq<string>, i: nat)
    requires i < |ps|
    ensures NonEmpty(ps[..i + 1]) == NonEmpty(ps[..i]) + (if ps[i] != "" then [ps[i]] else [])
  {
    assert ps[..i + 1][..i] == ps[..i];
  }

  /** Nothing is kept exactly when every piece is empty. */
  lemma NonEmptyNone(ps: seq<string>)
    ensures NonEmpty(ps) == [] <==> AllEmpty(ps)
  {
    if NonEmpty(ps) != [] {
      assert NonEmpty(ps)[0] in NonEmpty(ps);
    } else {
      forall k | 0 <= k < |ps|
        ensures ps[k] == ""
      {
        assert ps[k] in ps;
      }
    }
  }

  /** The trimmed comma-separated pieces of a list variable. */
  function ListPieces(v: string): seq<string> {
    TrimAll(Split(v, ","))
  }

  predicate AllEmpty(ps: seq<string>) {
    forall k :: 0 <= k < |ps| ==> ps[k] == ""
  }

  /** What getSliceEnv returns: the non-empty trimmed comma-separated pieces,
      or the default alone when the variable is unset or has none. */
  function SliceEnv(env: Environment, key: string, def: string): (r: seq<string>)
    ensures |r| >= 1
    ensures r == [def] || forall k :: 0 <= k < |r| ==> r[k] != ""
    ensures Getenv(env, key) == "" || AllEmpty(ListPieces(Getenv(env, key))) ==> r == [def]
    ensures Getenv(env, key) != "" && !AllEmpty(ListPieces(Getenv(env, key))) ==> r == NonEmpty(ListPieces(Getenv(env, key)))
  {
    var v := Getenv(env, key);
    if v == "" then [def]
    else
      var pieces := ListPieces(v);
      var kept := NonEmpty(pieces);
      NonEmptyNone(pieces);
      if |kept| > 0 then kept else [def]
  }

  /** getSliceEnv. */
  method GetSliceEnv(env: Environment, key: string, def: string) returns (r: seq<string>)
    ensures r == SliceEnv(env, key, def)
  {
    var v := Getenv(env, key);
    if v != "" {
      var pieces := SplitTrim(v, ",");
      var out := [];
      var i := 0;
      while i < |pieces|
        invariant 0 <= i <= |pieces|
        invariant out == NonEmpty(pieces[..i])
      {
        NonEmptyStep(pieces, i);
        if pieces[i] != "" {
          out := out + [pieces[i]];
        }
        i := i + 1;
      }
      assert pieces[..i] == pieces;
      assert pieces == ListPieces(v);
      NonEmptyNone(pieces);
      if |out| > 0 {
        return out;
      }
    }
    return [def];
  }

  /** A list variable whose pieces carry no blanks at their ends is split
      back into exactly the pieces it was joined from. */
  lemma {:induction false} SplitTrimJoin(s: string, sep: string)
    requires |sep| > 0
    requires forall k :: 0 <= k < |Split(s, sep)| ==> TrimBy(Split(s, sep)[k], IsBlank) == Split(s, sep)[k]
    ensures Join(TrimAll(Split(s, sep)), sep) == s
  {
    TrimAllPieces(Split(s, sep));
    assert TrimAll(Split(s, sep)) == Split(s, sep);
    JoinSplit(s, sep);
  }

  /** The configuration fields. */
  datatype Settings = Settings(
    httpPort: string,
    databaseUrl: string,
    dbPoolSize: int,
    redisUrl: string,
    redisPoolSize: int,
    cacheTtl: int,
    kafkaBrokers: seq<string>,
    kafkaTopic: string,
    kafkaPartitions: int,
    workerPoolSize: int,
    jwtSecret: string)

  /** The configuration the environment determines, with the documented defaults. */
  function Load(env: Environment): (c: Settings)
    ensures |c.kafkaBrokers| >= 1 && c.httpPort != "" && c.redisUrl != "" && c.kafkaTopic != ""
  {
    Settings(
      GetEnv(env, "HTTP_PORT", "8080"),
      Getenv(env, "DATABASE_URL"),
      GetIntEnv(env, "DB_POOL_SIZE", 100),
      GetEnv(env, "REDIS_URL", "redis://localhost:6379/0"),
      GetIntEnv(env, "REDIS_POOL_SIZE", 500),
      GetIntEnv(env, "CACHE_TTL_SEC", 300),
      SliceEnv(env, "KAFKA_BROKERS", "localhost:9092"),
      GetEnv(env, "KAFKA_TODO_TOPIC", "todo-commands"),
      GetIntEnv(env, "KAFKA_PARTITIONS", 16),
      GetIntEnv(env, "WORKER_POOL_SIZE", 32),
      Getenv(env, "JWT_SECRET"))
  }

  /** With nothing set, every field takes its default. */
  lemma EmptyEnvironmentDefaults()
    ensures Load(map[]) == Settings("8080", "", 100, "redis://localhost:6379/0", 500, 300,
                                    ["localhost:9092"], "todo-commands", 16, 32, "")
  {
  }

  /** The process-wide configuration, built once. */
  class ConfigHolder {
    var cfg: Option<Settings>

    constructor ()
      ensures cfg == None
    {
      cfg := None;
    }

    /** Get: the first call builds the configuration from the environment it
        sees; every later call returns that same configuration. */
    method Get(env: Environment) returns (c: Settings)
      modifies this
      ensures old(cfg).Some? ==> c == old(cfg).value
      ensures old(cfg).None? ==> c == Load(env)
      ensures cfg == Some(c)
    {
      if cfg.None? {
        var brokers := GetSliceEnv(env, "KAFKA_BROKERS", "localhost:9092");
        cfg := Some(Settings(
          GetEnv(env, "HTTP_PORT", "8080"),
          Getenv(env, "DATABASE_URL"),
          GetIntEnv(env, "DB_POOL_SIZE", 100),
          GetEnv(env, "REDIS_URL", "redis://localhost:6379/0"),
          GetIntEnv(env, "REDIS_POOL_SIZE", 500),
          GetIntEnv(env, "CACHE_TTL_SEC", 300),
          brokers,
          GetEnv(env, "KAFKA_TODO_TOPIC", "todo-commands"),
          GetIntEnv(env, "KAFKA_PARTITIONS", 16),
          GetIntEnv(env, "WORKER_POOL_SIZE", 32),
          Getenv(env, "JWT_SECRET")));
      }
      c := cfg.value;
    }
  }
}
