/** The savings-account listing page: the accounts shown for the URL's
    `search` and `tipo` parameters, and the summary cards (total balance,
    active accounts, the account types offered by the filter). */
module Products {
  import opened Wrappers
  import opened Text

  datatype Status = Active | Inactive

  /** One savings account of the fixture. */
  datatype Account = Account(
    id: string,
    accountNumber: string,
    holderName: string,
    balance: real,
    interestRate: real,
    openDate: string,
    accountType: string,
    status: Status,
    currency: string)

  /** The page's query parameters; a missing parameter is `None`. */
  datatype Params = Params(search: Option<string>, tipo: Option<string>)

  // ---------------------------------------------------------------------
  // Sequences
  // ---------------------------------------------------------------------

  /** `r` is `s` with some elements removed, the rest kept in order. */
  predicate IsSubsequence<T(==)>(r: seq<T>, s: seq<T>)
    decreases |s|
  {
    if r == [] then true
    else if s == [] then false
    else if r[0] == s[0] then IsSubsequence(r[1..], s[1..])
    else IsSubsequence(r, s[1..])
  }

  /** `Array.prototype.filter` on accounts: the accounts satisfying `p`,
      in order. */
  function Filter(s: seq<Account>, p: Account -> bool): (r: seq<Account>)
    ensures forall x :: x in r ==> p(x) && x in s
    ensures forall x :: x in s && p(x) ==> x in r
    ensures |r| <= |s|
    ensures |r| == |s| <==> forall x :: x in s ==> p(x)
  {
    if s == [] then []
    else
      var rest := Filter(s[1..], p);
      assert forall x :: x in s <==> x == s[0] || x in s[1..];
      if p(s[0]) then [s[0]] + rest else rest
  }

  /** What `Filter` keeps, it keeps in the original order. */
  lemma {:induction false} FilterIsSubsequence(s: seq<Account>, p: Account -> bool)
    ensures IsSubsequence(Filter(s, p), s)
  {
    if s != [] {
      FilterIsSubsequence(s[1..], p);
      if p(s[0]) {
        assert ([s[0]] + Filter(s[1..], p))[1..] == Filter(s[1..], p);
      }
    }
  }

  /** Filtering twice keeps what one pass with both conditions keeps. */
  lemma {:induction false} FilterTwice(s: seq<Account>, p: Account -> bool, q: Account -> bool)
    ensures Filter(Filter(s, p), q) == Filter(s, x => p(x) && q(x))
  {
    if s != [] {
      FilterTwice(s[1..], p, q);
      if p(s[0]) {
        assert Filter([s[0]] + Filter(s[1..], p), q) ==
          (if q(s[0]) then [s[0]] else []) + Filter(Filter(s[1..], p), q) by {
          assert ([s[0]] + Filter(s[1..], p))[1..] == Filter(s[1..], p);
        }
      }
    }
  }

  /** Two conditions that agree on every element select the same elements. */
  lemma {:induction false} FilterAgree(s: seq<Account>, p: Account -> bool, q: Account -> bool)
    requires forall x :: x in s ==> p(x) == q(x)
    ensures Filter(s, p) == Filter(s, q)
  {
    if s != [] {
      assert forall x :: x in s[1..] ==> x in s;
      FilterAgree(s[1..], p, q);
    }
  }

  // ---------------------------------------------------------------------
  // The filters
  // ---------------------------------------------------------------------

  /** JavaScript truthiness of an optional string: present and non-empty. */
  predicate Present(v: Option<string>)
  {
    v.Some? && v.value != ""
  }

  /** `if (params.search)`. */
  predicate SearchActive(params: Params)
  {
    Present(params.search)
  }

  /** `if (params.tipo && params.tipo !== "todos")`. */
  predicate TipoActive(params: Params)
  {
    Present(params.tipo) && params.tipo.value != "todos"
  }

  /** The search test for an already lower-cased query: the lower-cased
      holder name or the account number as stored contains it. */
  predicate MatchesSearch(a: Account, q: string)
  {
    Includes(Lower(a.holderName), q) || Includes(a.accountNumber, q)
  }

  /** What an account must satisfy to be listed. */
  predicate Keeps(params: Params, a: Account)
  {
    && (SearchActive(params) ==> MatchesSearch(a, Lower(params.search.value)))
    && (TipoActive(params) ==> a.accountType == params.tipo.value)
  }

  function SearchTest(q: string): Account -> bool
  {
    (a: Account) => MatchesSearch(a, q)
  }

  function TypeTest(t: string): Account -> bool
  {
    (a: Account) => a.accountType == t
  }

  function KeepsTest(params: Params): Account -> bool
  {
    (a: Account) => Keeps(params, a)
  }

  /** The search step: with a search given, keep the accounts whose
      lower-cased holder name or raw account number contains the lower-cased
      search; otherwise keep the list as it is. */
  function SearchStep(all: seq<Account>, params: Params): (r: seq<Account>)
    ensures forall a :: a in r <==>
      a in all && (SearchActive(params) ==> MatchesSearch(a, Lower(params.search.value)))
    ensures !SearchActive(params) ==> r == all
  {
    if SearchActive(params) then Filter(all, SearchTest(Lower(params.search.value))) else all
  }

  /** The type step: with a type other than "todos" given, keep the
      accounts of that type; otherwise keep the list as it is. */
  function TypeStep(accounts: seq<Account>, params: Params): (r: seq<Account>)
    ensures forall a :: a in r <==>
      a in accounts && (TipoActive(params) ==> a.accountType == params.tipo.value)
    ensures !TipoActive(params) ==> r == accounts
  {
    if TipoActive(params) then Filter(accounts, TypeTest(params.tipo.value)) else accounts
  }

  /** The list the page renders: the search filter, then the type filter.
      It is an ordered selection of the accounts that keeps every account
      meeting the active filters and nothing else, and all accounts when
      no filter is active. */
  function VisibleAccounts(all: seq<Account>, params: Params): (r: seq<Account>)
    ensures IsSubsequence(r, all)
    ensures forall a :: a in r ==> a in all && Keeps(params, a)
    ensures forall a :: a in all && Keeps(params, a) ==> a in r
    ensures !SearchActive(params) && !TipoActive(params) ==> r == all
  {
    VisibleIsOnePass(all, params);
    FilterIsSubsequence(all, KeepsTest(params));
    TypeStep(SearchStep(all, params), params)
  }

  /** The two filters in a row are one pass with `Keeps`. */
  lemma VisibleIsOnePass(all: seq<Account>, params: Params)
    ensures TypeStep(SearchStep(all, params), params) == Filter(all, KeepsTest(params))
  {
    if SearchActive(params) {
      var ps := SearchTest(Lower(params.search.value));
      if TipoActive(params) {
        FilterTwice(all, ps, TypeTest(params.tipo.value));
        FilterAgree(all, x => ps(x) && TypeTest(params.tipo.value)(x), KeepsTest(params));
      } else {
        FilterAgree(all, ps, KeepsTest(params));
      }
    } else if TipoActive(params) {
      FilterAgree(all, TypeTest(params.tipo.value), KeepsTest(params));
    } else {
      FilterAgree(all, x => true, KeepsTest(params));
      FilterAll(all);
    }
  }

  /** Keeping everything returns the sequence itself. */
  lemma {:induction false} FilterAll(s: seq<Account>)
    ensures Filter(s, x => true) == s
  {
    if s != [] {
      FilterAll(s[1..]);
    }
  }

  /** The listing is the single pass over all accounts that keeps exactly
      the accounts meeting both active filters, in their original order. */
  lemma VisibleAccountsExact(all: seq<Account>, params: Params)
    ensures VisibleAccounts(all, params) == Filter(all, KeepsTest(params))
  {
    VisibleIsOnePass(all, params);
  }

  /** `toLowerCase` leaves a lower-cased string unchanged. */
  lemma LowerIdempotent(s: string)
    ensures Lower(Lower(s)) == Lower(s)
  {
  }

  /** The search ignores the case of the query: searching for a text and
      for its lower-cased form list the same accounts. */
  lemma SearchIgnoresCase(all: seq<Account>, search: string, tipo: Option<string>)
    ensures VisibleAccounts(all, Params(Some(search), tipo)) ==
            VisibleAccounts(all, Params(Some(Lower(search)), tipo))
  {
    var p1, p2 := Params(Some(search), tipo), Params(Some(Lower(search)), tipo);
    LowerIdempotent(search);
    VisibleAccountsExact(all, p1);
    VisibleAccountsExact(all, p2);
    FilterAgree(all, KeepsTest(p1), KeepsTest(p2));
  }

  // ---------------------------------------------------------------------
  // The summary cards
  // ---------------------------------------------------------------------

  /** `reduce((sum, acc) => sum + acc.balance, 0)`, folding from the left:
      0 for no accounts, the balance of a single account, and never
      negative when no balance is. */
  function TotalBalance(s: seq<Account>): (t: real)
    ensures s == [] ==> t == 0.0
    ensures |s| == 1 ==> t == s[0].balance
    ensures (forall i :: 0 <= i < |s| ==> s[i].balance >= 0.0) ==> t >= 0.0
  {
    if s == [] then 0.0 else TotalBalance(s[..|s| - 1]) + s[|s| - 1].balance
  }

  /** The total of two runs of accounts is the sum of their totals. */
  lemma {:induction false} TotalBalanceAppend(s: seq<Account>, t: seq<Account>)
    ensures TotalBalance(s + t) == TotalBalance(s) + TotalBalance(t)
    decreases |t|
  {
    if t != [] {
      assert (s + t)[..|s + t| - 1] == s + t[..|t| - 1];
      assert (s + t)[|s + t| - 1] == t[|t| - 1];
      TotalBalanceAppend(s, t[..|t| - 1]);
    } else {
      assert s + t == s;
    }
  }

  /** Splitting the accounts by any condition splits the total: what one
      side holds plus what the other side holds is the whole balance. */
  lemma {:induction false} TotalBalancePartition(s: seq<Account>, p: Account -> bool)
    ensures TotalBalance(Filter(s, p)) + TotalBalance(Filter(s, a => !p(a))) == TotalBalance(s)
  {
    if s != [] {
      var np := (a: Account) => !p(a);
      var rest := s[1..];
      TotalBalancePartition(rest, p);
      var kept, dropped := TotalBalance(Filter(rest, p)), TotalBalance(Filter(rest, np));
      assert kept + dropped == TotalBalance(rest);
      TotalBalanceFilterStep(s, p);
      TotalBalanceFilterStep(s, np);
      TotalBalanceFirst(s);
      if p(s[0]) {
        assert TotalBalance(Filter(s, p)) == s[0].balance + kept;
        assert TotalBalance(Filter(s, np)) == dropped;
      } else {
        assert TotalBalance(Filter(s, p)) == kept;
        assert TotalBalance(Filter(s, np)) == s[0].balance + dropped;
      }
    }
  }

  /** The first account counts towards a filtered total exactly when it
      passes the filter. */
  lemma TotalBalanceFilterStep(s: seq<Account>, p: Account -> bool)
    requires s != []
    ensures TotalBalance(Filter(s, p)) ==
      (if p(s[0]) then s[0].balance else 0.0) + TotalBalance(Filter(s[1..], p))
  {
    if p(s[0]) {
      TotalBalanceCons(s[0], Filter(s[1..], p));
    }
  }

  /** The total is the first balance plus the total of the rest. */
  lemma TotalBalanceFirst(s: seq<Account>)
    requires s != []
    ensures TotalBalance(s) == s[0].balance + TotalBalance(s[1..])
  {
    assert s == [s[0]] + s[1..];
    TotalBalanceCons(s[0], s[1..]);
  }

  lemma TotalBalanceCons(x: Account, t: seq<Account>)
    ensures TotalBalance([x] + t) == x.balance + TotalBalance(t)
  {
    TotalBalanceAppend([x], t);
    assert [x][..0] == [];
  }

  predicate IsActive(a: Account)
  {
    a.status == Active
  }

  /** `filter(acc => acc.status === "active").length`: between 0 and the
      number of accounts, all of them exactly when every account is active,
      none exactly when none is. */
  function ActiveAccounts(s: seq<Account>): (n: nat)
    ensures n <= |s|
    ensures n == |s| <==> forall a :: a in s ==> IsActive(a)
    ensures n == 0 <==> forall a :: a in s ==> !IsActive(a)
  {
    var active := Filter(s, IsActive);
    assert active != [] ==> active[0] in active;
    |active|
  }

  /** Each account adds one to the active count exactly when it is active. */
  lemma ActiveAccountsAppend(s: seq<Account>, a: Account)
    ensures ActiveAccounts(s + [a]) == ActiveAccounts(s) + (if IsActive(a) then 1 else 0)
  {
    FilterAppend(s, [a], IsActive);
  }

  lemma {:induction false} FilterAppend(s: seq<Account>, t: seq<Account>, p: Account -> bool)
    ensures Filter(s + t, p) == Filter(s, p) + Filter(t, p)
  {
    if s != [] {
      TailOfAppend(s, t);
      FilterAppend(s[1..], t, p);
      var head := if p(s[0]) then [s[0]] else [];
      var rest, tail := Filter(s[1..], p), Filter(t, p);
      assert Filter(s + t, p) == head + (rest + tail);
      assert Filter(s, p) == head + rest;
      assert head + (rest + tail) == (head + rest) + tail;
    } else {
      assert s + t == t;
    }
  }

  lemma TailOfAppend(s: seq<Account>, t: seq<Account>)
    requires s != []
    ensures (s + t)[0] == s[0] && (s + t)[1..] == s[1..] + t
  {
  }

  // ---------------------------------------------------------------------
  // The account types
  // ---------------------------------------------------------------------

  /** `todasCuentas.map(acc => acc.accountType)`. */
  function Types(s: seq<Account>): (r: seq<string>)
    ensures |r| == |s| && forall i :: 0 <= i < |s| ==> r[i] == s[i].accountType
  {
    seq(|s|, i requires 0 <= i < |s| => s[i].accountType)
  }

  predicate NoDuplicates<T(==)>(s: seq<T>)
  {
    forall i, j :: 0 <= i < j < |s| ==> s[i] != s[j]
  }

  /** The position of the first occurrence of `x` in `s`. */
  function FirstIndex<T(==)>(s: seq<T>, x: T): (i: nat)
    requires x in s
    ensures i < |s| && s[i] == x && x !in s[..i]
  {
    if s[0] == x then 0 else 1 + FirstIndex(s[1..], x)
  }

  /** `Array.from(new Set(xs))`: the distinct values in the order a `Set`
      receives them, that is, each value at its first insertion. */
  function InsertionOrder(xs: seq<string>): (r: seq<string>)
    ensures NoDuplicates(r)
    ensures forall x :: x in r <==> x in xs
  {
    if xs == [] then []
    else
      var r := InsertionOrder(xs[..|xs| - 1]);
      var x := xs[|xs| - 1];
      assert forall y :: y in xs <==> y in xs[..|xs| - 1] || y == x by {
        assert xs == xs[..|xs| - 1] + [x];
      }
      if x in r then r else r + [x]
  }

  /** A position holding `x` with no `x` before it is the first one. */
  lemma FirstIndexUnique(xs: seq<string>, x: string, i: nat)
    requires i < |xs| && xs[i] == x && x !in xs[..i]
    ensures FirstIndex(xs, x) == i
  {
    var j := FirstIndex(xs, x);
    assert forall m :: 0 <= m < i ==> xs[..i][m] == xs[m];
    assert forall m :: 0 <= m < j ==> xs[..j][m] == xs[m];
  }

  /** The first occurrence of a value in a prefix is its first occurrence
      in the whole sequence. */
  lemma FirstIndexPrefix(xs: seq<string>, k: nat, x: string)
    requires k <= |xs| && x in xs[..k]
    ensures FirstIndex(xs, x) == FirstIndex(xs[..k], x)
  {
    var i := FirstIndex(xs[..k], x);
    assert xs[..k][i] == xs[i];
    assert xs[..k][..i] == xs[..i];
    FirstIndexUnique(xs, x, i);
  }

  /** The distinct values come out in order of first occurrence. */
  lemma {:induction false} InsertionOrderIsFirstOccurrence(xs: seq<string>, i: nat, j: nat)
    requires i < j < |InsertionOrder(xs)|
    ensures FirstIndex(xs, InsertionOrder(xs)[i]) < FirstIndex(xs, InsertionOrder(xs)[j])
    decreases |xs|
  {
    var pre := xs[..|xs| - 1];
    var rp := InsertionOrder(pre);
    var x := xs[|xs| - 1];
    InsertionOrderStep(xs);
    var r := InsertionOrder(xs);
    assert r[i] == rp[i] && rp[i] in pre;
    FirstIndexPrefix(xs, |xs| - 1, rp[i]);
    var fi := FirstIndex(pre, rp[i]);
    assert FirstIndex(xs, r[i]) == fi;
    if j < |rp| {
      assert r[j] == rp[j] && rp[j] in pre;
      InsertionOrderIsFirstOccurrence(pre, i, j);
      FirstIndexPrefix(xs, |xs| - 1, rp[j]);
      assert FirstIndex(xs, r[j]) == FirstIndex(pre, rp[j]) > fi;
    } else {
      assert r[j] == x && x !in pre;
      FirstIndexUnique(xs, x, |xs| - 1);
      assert FirstIndex(xs, r[j]) == |pre| > fi;
    }
  }

  /** One step of the insertion: the last value is appended exactly when
      the earlier values do not contain it. */
  lemma InsertionOrderStep(xs: seq<string>)
    requires xs != []
    ensures var pre := xs[..|xs| - 1]; var rp := InsertionOrder(pre); var x := xs[|xs| - 1];
      && (forall y :: y in rp <==> y in pre)
      && (if x in pre then InsertionOrder(xs) == rp else InsertionOrder(xs) == rp + [x])
  {
  }

  /** The account types offered by the filter. */
  function AccountTypes(s: seq<Account>): (r: seq<string>)
    ensures NoDuplicates(r)
    ensures forall t :: t in r <==> exists a :: a in s && a.accountType == t
  {
    var types := Types(s);
    assert forall t :: t in types <==> exists a :: a in s && a.accountType == t by {
      forall t | t in types ensures exists a :: a in s && a.accountType == t {
        var i :| 0 <= i < |types| && types[i] == t;
        assert s[i] in s;
      }
      forall t | exists a :: a in s && a.accountType == t ensures t in types {
        var a :| a in s && a.accountType == t;
        var i :| 0 <= i < |s| && s[i] == a;
        assert types[i] == t;
      }
    }
    InsertionOrder(types)
  }

  /** The summary shown above the list, computed over every account. */
  datatype Summary = Summary(totalBalance: real, activeAccounts: nat, total: nat, accountTypes: seq<string>)

  /** The page: the filtered list, the summary of all accounts, and the
      initial filter inputs (`params.search || ""`, `params.tipo || "todos"`). */
  datatype Page = Page(accounts: seq<Account>, summary: Summary, currentSearch: string, currentTipo: string)

  function Summarize(all: seq<Account>): (r: Summary)
    ensures r.activeAccounts <= r.total == |all|
  {
    Summary(TotalBalance(all), ActiveAccounts(all), |all|, AccountTypes(all))
  }

  /** `params.x || fallback`: the parameter when it is present and
      non-empty, the fallback otherwise. */
  function OrElse(v: Option<string>, fallback: string): (r: string)
    ensures r == "" ==> fallback == ""
    ensures v.Some? && v.value != "" ==> r == v.value
    ensures v.None? ==> r == fallback
    ensures v == Some("") ==> r == fallback
  {
    if Present(v) then v.value else fallback
  }

  /** The rendered page: the listing for the filters, the summary of all
      accounts, and the panel's initial inputs (`params.search || ""`,
      `params.tipo || "todos"`), whose selector is never empty. */
  function Render(all: seq<Account>, params: Params): (r: Page)
    ensures r.currentTipo != ""
    ensures Present(params.tipo) ==> r.currentTipo == params.tipo.value
    ensures Present(params.search) ==> r.currentSearch == params.search.value
    ensures !Present(params.search) ==> r.currentSearch == ""
    ensures !Present(params.tipo) ==> r.currentTipo == "todos"
  {
    Page(VisibleAccounts(all, params), Summarize(all), OrElse(params.search, ""), OrElse(params.tipo, "todos"))
  }

  /** The summary cards do not depend on the filters, and the listed
      accounts never outnumber the total. */
  lemma SummaryIgnoresFilters(all: seq<Account>, p1: Params, p2: Params)
    ensures Render(all, p1).summary == Render(all, p2).summary
    ensures |Render(all, p1).accounts| <= Render(all, p1).summary.total
  {
    var r := VisibleAccounts(all, p1);
    VisibleAccountsExact(all, p1);
  }
}
