/** The seed script: 10,000 todos for the user "seed-user", inserted by 20
    multi-row INSERT statements of 500 rows each. The ids uuid.New would
    give and whether each statement fails arrive as parameters; the database
    is the list of statements it accepted. The .env loader the script runs
    first is the one in EnvFile. */
module Seed {
  import Strconv
  import opened Text

  const Total := 10_000
  const BatchSize := 500
  const Batches := Total / BatchSize
  const UserId := "seed-user"
  const InsertPrefix := "INSERT INTO todos (id, title, description, completed, user_id, created_at, updated_at) VALUES "

  /** One bound argument of the statement. */
  datatype Arg = Str(s: string) | Bool(b: bool)

  /** One statement the database accepted. */
  datatype Statement = Statement(query: string, args: seq<Arg>)

  /** The number of row i of a batch, counted from 1 over the whole run. */
  function RowNumber(batch: nat, i: nat): nat {
    batch * BatchSize + i + 1
  }

  /** The parameter numbers of row i's placeholder group, $5i+1 to $5i+5. */
  function Placeholder(i: nat): seq<nat> {
    [5 * i + 1, 5 * i + 2, 5 * i + 3, 5 * i + 4, 5 * i + 5]
  }

  /** The placeholder groups of the first n rows. */
  function Placeholders(n: nat): (ps: seq<seq<nat>>)
    ensures |ps| == n
  {
    if n == 0 then [] else Placeholders(n - 1) + [Placeholder(n - 1)]
  }

  /** The five arguments of row number n: id, title, description, completed
      and user. */
  function RowArgs(id: string, n: nat): seq<Arg> {
    [Str(id),
     Str("Todo " + Strconv.NatToDecimal(n)),
     Str("Description for todo " + Strconv.NatToDecimal(n)),
     Bool(false),
     Str(UserId)]
  }

  /** The arguments of the first n rows of a batch, row after row. */
  function BatchArgs(batch: nat, ids: seq<string>, n: nat): (args: seq<Arg>)
    requires n <= |ids|
    ensures |args| == 5 * n
  {
    if n == 0 then [] else BatchArgs(batch, ids, n - 1) + RowArgs(ids[n - 1], RowNumber(batch, n - 1))
  }

  /** One placeholder group as text: "($a,$b,$c,$d,$e,NOW(),NOW())". */
  function Render(p: seq<nat>): string {
    "(" + Join(seq(|p|, k requires 0 <= k < |p| => "$" + Strconv.NatToDecimal(p[k])), ",") + ",NOW(),NOW())"
  }

  /** The statement text: the INSERT prefix and the groups joined with ",". */
  function Query(ps: seq<seq<nat>>): string {
    InsertPrefix + Join(seq(|ps|, k requires 0 <= k < |ps| => Render(ps[k])), ",")
  }

  /** The inner loop: one placeholder group and five arguments per row. */
  method BuildBatch(batch: nat, ids: seq<string>) returns (placeholders: seq<seq<nat>>, args: seq<Arg>)
    requires |ids| == BatchSize
    ensures placeholders == Placeholders(BatchSize)
    ensures args == BatchArgs(batch, ids, BatchSize)
  {
    args := [];
    placeholders := [];
    var i := 0;
    while i < BatchSize
      invariant 0 <= i <= BatchSize
      invariant placeholders == Placeholders(i)
      invariant args == BatchArgs(batch, ids, i)
    {
      var n := batch * BatchSize + i + 1;
      placeholders := placeholders + [[5 * i + 1, 5 * i + 2, 5 * i + 3, 5 * i + 4, 5 * i + 5]];
      args := args + [Str(ids[i]),
                      Str("Todo " + Strconv.NatToDecimal(n)),
                      Str("Description for todo " + Strconv.NatToDecimal(n)),
                      Bool(false),
                      Str(UserId)];
      i := i + 1;
    }
  }

  /** The index of the first failing statement, or the number of statements
      when none fails. */
  function FirstFailure(fails: seq<bool>): (k: nat)
    ensures k <= |fails|
    ensures forall b :: 0 <= b < k ==> !fails[b]
    ensures k < |fails| ==> fails[k]
  {
    if fails == [] || fails[0] then 0 else 1 + FirstFailure(fails[1..])
  }

  /** The statements of the first k batches. */
  function Statements(ids: seq<seq<string>>, k: nat): (ss: seq<Statement>)
    requires k <= |ids|
    requires forall b :: 0 <= b < |ids| ==> |ids[b]| == BatchSize
    ensures |ss| == k
  {
    if k == 0 then []
    else Statements(ids, k - 1) + [Statement(Query(Placeholders(BatchSize)), BatchArgs(k - 1, ids[k - 1], BatchSize))]
  }

  /** main's outer loop: the batches run in order, and the first statement
      that fails ends the script before any later batch. */
  method Run(ids: seq<seq<string>>, fails: seq<bool>) returns (accepted: seq<Statement>, failed: bool)
    requires |ids| == Batches && |fails| == Batches
    requires forall b :: 0 <= b < Batches ==> |ids[b]| == BatchSize
    ensures failed <==> FirstFailure(fails) < Batches
    ensures accepted == Statements(ids, FirstFailure(fails))
  {
    accepted := [];
    var batch := 0;
    while batch < Total / BatchSize
      invariant 0 <= batch <= Batches
      invariant batch <= FirstFailure(fails)
      invariant accepted == Statements(ids, batch)
    {
      var placeholders, args := BuildBatch(batch, ids[batch]);
      var q := InsertPrefix + Join(seq(|placeholders|, k requires 0 <= k < |placeholders| => Render(placeholders[k])), ",");
      if fails[batch] {
        return accepted, true;
      }
      accepted := accepted + [Statement(q, args)];
      batch := batch + 1;
    }
    return accepted, false;
  }

  // ---------------------------------------------------------------------
  // Properties of the batches

  /** Group i of a batch's placeholders is row i's group. */
  lemma {:induction false} PlaceholdersAt(n: nat)
    ensures forall i :: 0 <= i < n ==> Placeholders(n)[i] == Placeholder(i)
  {
    if n > 0 {
      PlaceholdersAt(n - 1);
    }
  }

  /** The groups laid end to end. */
  function Flatten(ps: seq<seq<nat>>): seq<nat> {
    if ps == [] then [] else Flatten(ps[..|ps| - 1]) + ps[|ps| - 1]
  }

  /** The parameters of n rows are numbered 1 to 5n, consecutively and in
      order, so a batch uses $1 to $2500 each exactly once. */
  lemma {:induction false} ParametersConsecutive(n: nat)
    ensures |Flatten(Placeholders(n))| == 5 * n
    ensures forall k :: 0 <= k < 5 * n ==> Flatten(Placeholders(n))[k] == k + 1
  {
    if n > 0 {
      var ps := Placeholders(n);
      ParametersConsecutive(n - 1);
      assert ps[..n - 1] == Placeholders(n - 1);
      var front := Flatten(Placeholders(n - 1));
      assert Flatten(ps) == front + Placeholder(n - 1);
      forall k | 5 * (n - 1) <= k < 5 * n
        ensures Flatten(ps)[k] == k + 1
      {
        assert Flatten(ps)[k] == Placeholder(n - 1)[k - 5 * (n - 1)];
      }
    }
  }

  /** The arguments of row i sit at positions 5i to 5i + 4. */
  lemma {:induction false} BatchArgsLayout(batch: nat, ids: seq<string>, n: nat)
    requires n <= |ids|
    ensures forall i :: 0 <= i < n ==> BatchArgs(batch, ids, n)[5 * i..5 * i + 5] == RowArgs(ids[i], RowNumber(batch, i))
  {
    if n > 0 {
      BatchArgsLayout(batch, ids, n - 1);
      var front := BatchArgs(batch, ids, n - 1);
      var row := RowArgs(ids[n - 1], RowNumber(batch, n - 1));
      forall i | 0 <= i < n
        ensures BatchArgs(batch, ids, n)[5 * i..5 * i + 5] == RowArgs(ids[i], RowNumber(batch, i))
      {
        if i < n - 1 {
          assert (front + row)[5 * i..5 * i + 5] == front[5 * i..5 * i + 5];
        } else {
          assert (front + row)[5 * i..5 * i + 5] == row;
        }
      }
    }
  }

  /** Parameter $p of a batch's statement is bound to argument p: row i's
      placeholders name its id, title, description, completed flag and user,
      in that order. */
  lemma PlaceholderBindsRow(batch: nat, ids: seq<string>, i: nat, j: nat)
    requires |ids| == BatchSize && i < BatchSize && j < 5
    ensures 1 <= Placeholder(i)[j] <= |BatchArgs(batch, ids, BatchSize)|
    ensures BatchArgs(batch, ids, BatchSize)[Placeholder(i)[j] - 1] == RowArgs(ids[i], RowNumber(batch, i))[j]
  {
    BatchArgsLayout(batch, ids, BatchSize);
    var args := BatchArgs(batch, ids, BatchSize);
    assert Placeholder(i)[j] == 5 * i + j + 1;
    assert args[5 * i..5 * i + 5][j] == args[5 * i + j];
  }

  /** Every row number from 1 to Total is given to exactly one row of one batch. */
  lemma RowNumbersCover(m: nat)
    requires 1 <= m <= Total
    ensures exists batch: nat, i: nat :: batch < Batches && i < BatchSize && RowNumber(batch, i) == m
  {
    var batch, i := (m - 1) / BatchSize, (m - 1) % BatchSize;
    assert RowNumber(batch, i) == m;
  }

  lemma RowNumbersDistinct(b1: nat, i1: nat, b2: nat, i2: nat)
    requires i1 < BatchSize && i2 < BatchSize
    requires RowNumber(b1, i1) == RowNumber(b2, i2)
    ensures b1 == b2 && i1 == i2
  {
  }

  /** Rows with different numbers get different titles and descriptions. */
  lemma TitlesDistinct(id1: string, n1: nat, id2: string, n2: nat)
    requires n1 != n2
    ensures RowArgs(id1, n1)[1] != RowArgs(id2, n2)[1]
    ensures RowArgs(id1, n1)[2] != RowArgs(id2, n2)[2]
  {
    NumberedDistinct("Todo ", n1, n2);
    NumberedDistinct("Description for todo ", n1, n2);
  }

  lemma NumberedDistinct(p: string, n1: nat, n2: nat)
    requires n1 != n2
    ensures p + Strconv.NatToDecimal(n1) != p + Strconv.NatToDecimal(n2)
  {
    var s1, s2 := p + Strconv.NatToDecimal(n1), p + Strconv.NatToDecimal(n2);
    if s1 == s2 {
      assert s1[|p|..] == Strconv.NatToDecimal(n1);
      assert s2[|p|..] == Strconv.NatToDecimal(n2);
      Strconv.NatToDecimalInjective(n1, n2);
    }
  }

  /** With no failing statement the script inserts Total rows in Batches statements. */
  lemma AllBatchesInsertTotal(fails: seq<bool>)
    requires |fails| == Batches && forall b :: 0 <= b < Batches ==> !fails[b]
    ensures FirstFailure(fails) == Batches && Batches * BatchSize == Total
  {
  }
}
