/**
 * The account's rows and the resolver's bank rows are one table: what a resolve
 * pass does to the second is what `AllAfterPass` says of the first.
 */
module AccountView {
  import opened Common
  import opened BankRows
  import opened DecisionPolicy
  import opened Books
  import opened Resolver
  import opened ResolverTheorems
  import Account

  /** The bank row and the account's row are the same stored row. */
  predicate States(row: BankRow, r: Account.StoredRow) {
    && row.id == r.id && row.day == r.day && row.description == r.description && row.amount == r.amount
    && row.direction == r.direction && row.category == r.category
    && row.kind == r.class_.kind && row.loanRef == r.class_.loanRef && row.resolution == r.resolution
  }

  ghost predicate Shows(b: Books, rows: seq<Account.StoredRow>) {
    forall i | 0 <= i < |rows| :: Shown(b, rows[i])
  }

  ghost predicate Shown(b: Books, r: Account.StoredRow) {
    exists j | 0 <= j < |b.rows| :: States(b.rows[j], r)
  }

  /** Import and resolver classify by the same wording. */
  ghost predicate OneClassifier(rules: Rules, w: Account.Wording) {
    forall d, direction :: rules.classify(d, direction) == w.classify(Account.Text(d), direction)
  }

  /** The pass as one account sees it: each row's meaning, read off the resolved table. */
  ghost predicate Brings(pass: Account.ResolvePass, b: Books, env: Env) {
    && pass.nullsSeen == env.nullsSeen
    && forall j | 0 <= j < |b.rows| && !Manual(b.rows[j]) ::
         b.rows[j].id in pass.meanings && Pass(b, env).rows[j].resolution == Some(pass.meanings[b.rows[j].id])
  }

  lemma RowShowsPass(b: Books, env: Env, j: nat, r: Account.StoredRow, w: Account.Wording, pass: Account.ResolvePass)
    requires j < |b.rows| && States(b.rows[j], r) && OneClassifier(env.rules, w) && Brings(pass, b, env)
    ensures States(Pass(b, env).rows[j], Account.AfterPass(r, w, pass))
  {
    PassRow(b, env, j);
    PassKeepsIdentity(b, env, j);
  }

  /** If the account shows the table before a pass, its rows after the pass show the table after it. */
  lemma PassShows(b: Books, env: Env, rows: seq<Account.StoredRow>, w: Account.Wording, pass: Account.ResolvePass)
    requires Shows(b, rows) && OneClassifier(env.rules, w) && Brings(pass, b, env)
    ensures Shows(Pass(b, env), Account.AllAfterPass(rows, w, pass))
  {
    forall i | 0 <= i < |rows| ensures Shown(Pass(b, env), Account.AllAfterPass(rows, w, pass)[i]) {
      assert Shown(b, rows[i]);
      var j :| 0 <= j < |b.rows| && States(b.rows[j], rows[i]);
      RowShowsPass(b, env, j, rows[i], w, pass);
      assert States(Pass(b, env).rows[j], Account.AllAfterPass(rows, w, pass)[i]);
    }
  }

  /** The meanings on the rows of a table, by row id. */
  function MeaningsOf(rows: seq<BankRow>): map<nat, Resolution> {
    if rows == [] then map[]
    else
      var before, last := MeaningsOf(rows[..|rows| - 1]), rows[|rows| - 1];
      if last.resolution.Some? then before[last.id := last.resolution.value] else before
  }

  lemma {:induction false} MeaningsHold(rows: seq<BankRow>, j: nat)
    requires DistinctIds(rows) && j < |rows| && rows[j].resolution.Some?
    ensures rows[j].id in MeaningsOf(rows) && MeaningsOf(rows)[rows[j].id] == rows[j].resolution.value
  {
    if j < |rows| - 1 {
      MeaningsHold(rows[..|rows| - 1], j);
    }
  }

  /** The meanings a pass leaves on the table are what it brings. */
  lemma PassBringsItsMeanings(b: Books, env: Env)
    requires WellLinked(b)
    ensures Brings(Account.ResolvePass(env.nullsSeen, MeaningsOf(Pass(b, env).rows)), b, env)
  {
    PassKeepsWellLinked(b, env);
    forall j | 0 <= j < |b.rows|
      ensures b.rows[j].id in MeaningsOf(Pass(b, env).rows)
        && Pass(b, env).rows[j].resolution == Some(MeaningsOf(Pass(b, env).rows)[b.rows[j].id])
    {
      RowIsResolved(b, env, j);
      PassKeepsIdentity(b, env, j);
      MeaningsHold(Pass(b, env).rows, j);
    }
  }
}
