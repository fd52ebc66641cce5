/** The ledger's accounts, the text codes they are stored under, and the canonical order in which
    a transfer locks them. */
module Accounts {
  import opened GoVault

  datatype Account = External | Insurance | Fees | Available(user: User) | Pending(user: User) | Margin(user: User)

  const AVAILABLE_SUFFIX := ":available"
  const PENDING_SUFFIX := ":pending_withdraw"
  const MARGIN_SUFFIX := ":margin"

  function Code(a: Account): string
  {
    match a
    case External => "external"
    case Insurance => "insurance"
    case Fees => "fees"
    case Available(user) => "user:" + user + AVAILABLE_SUFFIX
    case Pending(user) => "user:" + user + PENDING_SUFFIX
    case Margin(user) => "user:" + user + MARGIN_SUFFIX
  }

  // The codes, spelled out.
  lemma CodesAre(user: User)
    ensures Code(Available(user)) == "user:" + user + ":available"
    ensures Code(Pending(user)) == "user:" + user + ":pending_withdraw"
    ensures Code(Margin(user)) == "user:" + user + ":margin"
    ensures Code(External) == "external" && Code(Insurance) == "insurance" && Code(Fees) == "fees"
  {
  }

  predicate HasSuffix(s: string, suffix: string)
  {
    |s| >= |suffix| && s[|s| - |suffix|..] == suffix
  }

  datatype AccountKind = ExternalKind | InsuranceKind | FeesKind | AvailableKind | PendingKind | MarginKind | OtherKind

  // The kind is read off the code, so no join is needed.
  function KindOf(code: string): AccountKind
  {
    if code == "external" then ExternalKind
    else if code == "insurance" then InsuranceKind
    else if code == "fees" then FeesKind
    else if HasSuffix(code, AVAILABLE_SUFFIX) then AvailableKind
    else if HasSuffix(code, PENDING_SUFFIX) then PendingKind
    else if HasSuffix(code, MARGIN_SUFFIX) then MarginKind
    else OtherKind
  }

  predicate MustStayNonNegative(code: string)
  {
    KindOf(code) in {AvailableKind, PendingKind, MarginKind}
  }

  // The accounts that represent user custody; `external` and `insurance` may go negative.
  predicate Custody(a: Account)
  {
    a.Available? || a.Pending? || a.Margin?
  }

  lemma UserCode(user: User, suffix: string)
    requires |suffix| >= 1
    ensures var code := "user:" + user + suffix;
      HasSuffix(code, suffix) && code[0] == 'u' && code[|code| - 1] == suffix[|suffix| - 1] &&
      code[5..|code| - |suffix|] == user
  {
    var code := "user:" + user + suffix;
    assert code[|code| - |suffix|..] == suffix;
    assert code[5..|code| - |suffix|] == user;
  }

  lemma CodeKinds(a: Account)
    ensures KindOf(Code(a)) ==
            match a {
              case External => ExternalKind case Insurance => InsuranceKind case Fees => FeesKind
              case Available(_) => AvailableKind case Pending(_) => PendingKind case Margin(_) => MarginKind
            }
  {
    match a {
      case Available(user) => UserCode(user, AVAILABLE_SUFFIX);
      case Pending(user) =>
        UserCode(user, PENDING_SUFFIX);
        SuffixEnd(Code(a), AVAILABLE_SUFFIX);
      case Margin(user) =>
        UserCode(user, MARGIN_SUFFIX);
        SuffixEnd(Code(a), AVAILABLE_SUFFIX);
        SuffixEnd(Code(a), PENDING_SUFFIX);
      case _ =>
    }
  }

  lemma SuffixEnd(code: string, suffix: string)
    requires |suffix| > 0
    ensures HasSuffix(code, suffix) ==> code[|code| - 1] == suffix[|suffix| - 1]
  {
    if HasSuffix(code, suffix) {
      assert code[|code| - |suffix|..][|suffix| - 1] == code[|code| - 1];
    }
  }

  // Codes name accounts: no two accounts share one, whatever characters a user id contains, and
  // the code alone tells whether the account is custody.
  lemma CodesNameAccounts(a: Account, b: Account)
    ensures Code(a) == Code(b) ==> a == b
    ensures MustStayNonNegative(Code(a)) <==> Custody(a)
  {
    CodeKinds(a);
    CodeKinds(b);
    if Code(a) == Code(b) {
      match a {
        case Available(user) => UserCode(user, AVAILABLE_SUFFIX); UserCode(b.user, AVAILABLE_SUFFIX);
        case Pending(user) => UserCode(user, PENDING_SUFFIX); UserCode(b.user, PENDING_SUFFIX);
        case Margin(user) => UserCode(user, MARGIN_SUFFIX); UserCode(b.user, MARGIN_SUFFIX);
        case _ =>
      }
    }
  }

  /* ----- the lock order ----- */

  // Lexicographic order on codes.
  predicate Below(s: string, t: string)
  {
    t != [] && (s == [] || s[0] < t[0] || (s[0] == t[0] && Below(s[1..], t[1..])))
  }

  lemma {:induction false} BelowIsTotal(s: string, t: string)
    ensures Below(s, t) || Below(t, s) || s == t
    ensures !(Below(s, t) && Below(t, s)) && !Below(s, s)
    decreases |s|
  {
    if s != [] {
      BelowIsTotal(s[1..], s[1..]);
      if t != [] {
        BelowIsTotal(s[1..], t[1..]);
        assert s == [s[0]] + s[1..] && t == [t[0]] + t[1..];
      }
    }
  }

  lemma {:induction false} BelowIsTransitive(s: string, t: string, u: string)
    requires Below(s, t) && Below(t, u)
    ensures Below(s, u)
    decreases |s|
  {
    if s != [] && s[0] == t[0] == u[0] {
      BelowIsTransitive(s[1..], t[1..], u[1..]);
    }
  }

  predicate Before(a: Account, b: Account)
  {
    Below(Code(a), Code(b))
  }

  predicate InLockOrder(codes: seq<Account>)
  {
    forall i, j | 0 <= i < j < |codes| :: Before(codes[i], codes[j])
  }

  // The position at which a code belongs among sorted codes.
  method Place(codes: seq<Account>, a: Account) returns (at: nat)
    requires InLockOrder(codes) && a !in codes
    ensures at <= |codes|
    ensures forall i | 0 <= i < at :: Before(codes[i], a)
    ensures forall i | at <= i < |codes| :: Before(a, codes[i])
  {
    at := 0;
    while at < |codes| && Before(codes[at], a)
      invariant 0 <= at <= |codes|
      invariant forall i | 0 <= i < at :: Before(codes[i], a)
    {
      at := at + 1;
    }
    if at < |codes| {
      BelowIsTotal(Code(codes[at]), Code(a));
      CodesNameAccounts(codes[at], a);
      forall i | at <= i < |codes| ensures Before(a, codes[i]) {
        if i > at {
          BelowIsTransitive(Code(a), Code(codes[at]), Code(codes[i]));
        }
      }
    }
  }

  lemma InsertedIn(codes: seq<Account>, at: nat, a: Account)
    requires at <= |codes|
    ensures var longer := codes[..at] + [a] + codes[at..];
      multiset(longer) == multiset(codes) + multiset{a} && forall b :: b in longer <==> b in codes || b == a
  {
    assert codes == codes[..at] + codes[at..];
  }

  // Sorts distinct codes into the lock order.
  method Sort(codes: seq<Account>) returns (sorted: seq<Account>)
    requires forall i, j | 0 <= i < j < |codes| :: codes[i] != codes[j]
    ensures InLockOrder(sorted) && multiset(sorted) == multiset(codes)
    ensures forall a :: a in sorted <==> a in codes
  {
    sorted := [];
    var i := 0;
    while i < |codes|
      invariant 0 <= i <= |codes|
      invariant InLockOrder(sorted) && multiset(sorted) == multiset(codes[..i])
      invariant forall a :: a in sorted <==> a in codes[..i]
    {
      var a := codes[i];
      var at := Place(sorted, a);
      InsertedIn(sorted, at, a);
      sorted := sorted[..at] + [a] + sorted[at..];
      assert codes[..i + 1] == codes[..i] + [a];
      i := i + 1;
    }
    assert codes[..i] == codes;
  }
}
