/** The upstream username that carries a sticky session (routing/manager/decodo.go:360-410). */
module DecodoUsername {
  import Decimal
  import opened Common

  datatype Result = Ok(value: string) | Err

  const MAX_SESSION_MINUTES: nat := 1440

  predicate AlphaNumChar(c: char) {
    'a' <= c <= 'z' || 'A' <= c <= 'Z' || '0' <= c <= '9'
  }

  predicate AlphaNum(s: string) {
    s != "" && forall i :: 0 <= i < |s| ==> AlphaNumChar(s[i])
  }

  function Lower(s: string): string {
    seq(|s|, i requires 0 <= i < |s| => if 'A' <= s[i] <= 'Z' then s[i] - 'A' + 'a' else s[i])
  }

  function Itoa(n: nat): string {
    var ds := Decimal.Digits(n);
    seq(|ds|, i requires 0 <= i < |ds| => '0' + ds[i] as char)
  }

  /** The form in which the parameters count. */
  datatype Params = Params(account: string, country: string, session: string, minutes: int)

  function Normalise(account: string, country: string, session: string, minutes: int): Params {
    var a := TrimSpace(account);
    Params(if "user-" <= a then a[5..] else a, Lower(TrimSpace(country)), TrimSpace(session), minutes)
  }

  predicate Acceptable(p: Params) {
    && AlphaNum(p.account)
    && AlphaNum(p.session)
    && (p.country != "" ==> |p.country| == 2 && AlphaNum(p.country))
    && 1 <= p.minutes <= MAX_SESSION_MINUTES
  }

  function Username(account: string, country: string, session: string, minutes: int): Result {
    var p := Normalise(account, country, session, minutes);
    if !Acceptable(p) then Err
    else Ok("user-" + p.account
            + (if p.country != "" then "-country-" + p.country else "")
            + "-session_iplock-" + p.session
            + "-sessionduration-" + Itoa(p.minutes))
  }

  // ---------------------------------------------------------------- reading a username back

  predicate DashFree(s: string) {
    '-' !in s
  }

  /** What follows the account, as dash-separated fields. */
  function Tail(p: Params): string
    requires p.minutes >= 0
  {
    var session := "session_iplock" + ("-" + (p.session + ("-" + ("sessionduration" + ("-" + Itoa(p.minutes))))));
    if p.country != "" then "country" + ("-" + (p.country + ("-" + session))) else session
  }

  /** A dashed label between two fields, regrouped to the right. */
  lemma Label(head: string, dashed: string, field: string, rest: string)
    requires dashed == "-" + field + "-"
    ensures head + dashed + rest == head + ("-" + (field + ("-" + rest)))
  {
    Assoc("-", field, "-");
    Assoc(head, dashed, rest);
    Assoc("-", field + "-", rest);
    Assoc(field, "-", rest);
  }

  /** Two labelled fields after a head, regrouped to the right. */
  lemma TwoFields(head: string, d1: string, f1: string, v1: string, d2: string, f2: string, v2: string)
    requires d1 == "-" + f1 + "-" && d2 == "-" + f2 + "-"
    ensures head + d1 + v1 + d2 + v2 == head + ("-" + (f1 + ("-" + (v1 + ("-" + (f2 + ("-" + v2)))))))
  {
    var last := f2 + ("-" + v2);
    Label(head + d1 + v1, d2, f2, v2);
    Assoc(head + d1, v1, "-" + last);
    Label(head, d1, f1, v1 + ("-" + last));
  }

  lemma UsernameShape(account: string, country: string, session: string, minutes: int)
    requires Username(account, country, session, minutes).Ok?
    ensures var p := Normalise(account, country, session, minutes);
            Username(account, country, session, minutes).value == "user-" + (p.account + ("-" + Tail(p)))
  {
    var p := Normalise(account, country, session, minutes);
    var mid := if p.country != "" then "-country-" + p.country else "";
    var user := "user-" + p.account;
    TwoFields(user + mid, "-session_iplock-", "session_iplock", p.session, "-sessionduration-", "sessionduration", Itoa(p.minutes));
    var rest := "session_iplock" + ("-" + (p.session + ("-" + ("sessionduration" + ("-" + Itoa(p.minutes))))));
    if p.country != "" {
      CountryPart(user, p.country, rest);
    } else {
      assert user + mid == user;
    }
    Assoc("user-", p.account, "-" + Tail(p));
  }

  lemma CountryPart(user: string, country: string, rest: string)
    ensures user + ("-country-" + country) + ("-" + rest) == user + ("-" + ("country" + ("-" + (country + ("-" + rest)))))
  {
    Assoc(user, "-country-", country);
    Assoc(user + "-country-", country, "-" + rest);
    Label(user, "-country-", "country", country + ("-" + rest));
  }

  /** A dash-free field before a dash is determined by the whole. */
  lemma CutField(a: string, x: string, b: string, y: string)
    requires DashFree(a) && DashFree(b) && a + ("-" + x) == b + ("-" + y)
    ensures a == b && x == y
  {
    var s := a + ("-" + x);
    assert s[|a|] == '-' && s[|b|] == '-';
    assert forall i :: 0 <= i < |a| ==> s[i] == a[i];
    assert forall i :: 0 <= i < |b| ==> s[i] == b[i];
    assert |a| == |b|;
    assert s[..|a|] == a && s[..|b|] == b;
    assert s[|a| + 1..] == x && s[|b| + 1..] == y;
  }

  lemma ItoaInjective(m: nat, n: nat)
    ensures Itoa(m) == Itoa(n) ==> m == n
  {
    if Itoa(m) == Itoa(n) {
      var a, b := Decimal.Digits(m), Decimal.Digits(n);
      assert |Itoa(m)| == |a| && |Itoa(n)| == |b|;
      forall i | 0 <= i < |a|
        ensures a[i] == b[i]
      {
        assert Itoa(m)[i] == '0' + a[i] as char;
        assert Itoa(n)[i] == '0' + b[i] as char;
      }
      Decimal.DigitsInjective(m, n);
    }
  }

  lemma TailInjective(p: Params, q: Params)
    requires Acceptable(p) && Acceptable(q) && Tail(p) == Tail(q)
    ensures p.country == q.country && p.session == q.session && p.minutes == q.minutes
  {
    var durationP, durationQ := "sessionduration" + ("-" + Itoa(p.minutes)), "sessionduration" + ("-" + Itoa(q.minutes));
    var afterP, afterQ := p.session + ("-" + durationP), q.session + ("-" + durationQ);
    var sessionP, sessionQ := "session_iplock" + ("-" + afterP), "session_iplock" + ("-" + afterQ);
    var restP := if p.country != "" then p.country + ("-" + sessionP) else afterP;
    var restQ := if q.country != "" then q.country + ("-" + sessionQ) else afterQ;
    CutField(if p.country != "" then "country" else "session_iplock", restP,
             if q.country != "" then "country" else "session_iplock", restQ);
    assert (p.country != "") == (q.country != "") by {
      assert |"country"| != |"session_iplock"|;
    }
    if p.country != "" {
      CutField(p.country, sessionP, q.country, sessionQ);
      CutField("session_iplock", afterP, "session_iplock", afterQ);
    }
    CutField(p.session, durationP, q.session, durationQ);
    CutField("sessionduration", Itoa(p.minutes), "sessionduration", Itoa(q.minutes));
    ItoaInjective(p.minutes, q.minutes);
  }

  /** Equal usernames come from equal parameters, with or without a country. */
  lemma UsernameInjective(a1: string, c1: string, s1: string, m1: int, a2: string, c2: string, s2: string, m2: int)
    requires Username(a1, c1, s1, m1).Ok? && Username(a1, c1, s1, m1) == Username(a2, c2, s2, m2)
    ensures Normalise(a1, c1, s1, m1) == Normalise(a2, c2, s2, m2)
  {
    var p, q := Normalise(a1, c1, s1, m1), Normalise(a2, c2, s2, m2);
    UsernameShape(a1, c1, s1, m1);
    UsernameShape(a2, c2, s2, m2);
    var u, v := p.account + ("-" + Tail(p)), q.account + ("-" + Tail(q));
    assert ("user-" + u)[5..] == u && ("user-" + v)[5..] == v;
    CutField(p.account, Tail(p), q.account, Tail(q));
    TailInjective(p, q);
  }

  lemma AlphaNumIsTrimmed(s: string)
    requires AlphaNum(s)
    ensures TrimSpace(s) == s
  {
  }

  /** Accepted sessions give the same upstream username exactly when they differ in blanks around them at most. */
  lemma SameUserExactlyWhen(account: string, country: string, s1: string, s2: string, minutes: int)
    requires Username(account, country, s1, minutes).Ok? && Username(account, country, s2, minutes).Ok?
    ensures Username(account, country, s1, minutes) == Username(account, country, s2, minutes) <==> TrimSpace(s1) == TrimSpace(s2)
  {
    if Username(account, country, s1, minutes) == Username(account, country, s2, minutes) {
      UsernameInjective(account, country, s1, minutes, account, country, s2, minutes);
    }
  }

  /** Different minted session ids give different upstream usernames. */
  lemma SessionsGiveDistinctUsernames(account: string, country: string, s1: string, s2: string, minutes: int)
    requires AlphaNum(s1) && AlphaNum(s2) && s1 != s2
    requires Username(account, country, s1, minutes).Ok? && Username(account, country, s2, minutes).Ok?
    ensures Username(account, country, s1, minutes).value != Username(account, country, s2, minutes).value
  {
    AlphaNumIsTrimmed(s1);
    AlphaNumIsTrimmed(s2);
    SameUserExactlyWhen(account, country, s1, s2, minutes);
  }

  /** A session with a blank in front is accepted and makes the username of the session without it. */
  lemma PaddedSessionSameUser(account: string, country: string, session: string, minutes: int)
    requires Username(account, country, session, minutes).Ok?
    ensures Username(account, country, " " + session, minutes) == Username(account, country, session, minutes)
  {
    assert (" " + session)[1..] == session;
    assert TrimSpace(" " + session) == TrimSpace(session);
  }

  /** What no username is made of: minutes outside 1..1440, or an account, session or country with other characters. */
  lemma UsernameRefuses(account: string, country: string, session: string, minutes: int)
    ensures minutes < 1 || minutes > 1440 ==> Username(account, country, session, minutes).Err?
    ensures '-' in TrimSpace(session) || TrimSpace(session) == "" ==> Username(account, country, session, minutes).Err?
    ensures TrimSpace(country) != "" && |TrimSpace(country)| != 2 ==> Username(account, country, session, minutes).Err?
  {
    var p := Normalise(account, country, session, minutes);
    if '-' in p.session {
      var i :| 0 <= i < |p.session| && p.session[i] == '-';
      assert !AlphaNumChar(p.session[i]);
    }
    assert |Lower(TrimSpace(country))| == |TrimSpace(country)|;
  }

  lemma PlainParams(account: string, country: string, session: string, minutes: int)
    requires AlphaNum(account) && AlphaNum(session) && !("user-" <= account)
    requires country == "" || (AlphaNum(country) && Lower(country) == country)
    ensures Normalise(account, country, session, minutes) == Params(account, country, session, minutes)
  {
    AlphaNumIsTrimmed(account);
    AlphaNumIsTrimmed(session);
    if country != "" {
      AlphaNumIsTrimmed(country);
    } else {
      assert TrimSpace("") == "" && Lower("") == "";
    }
  }

  /** The username of plain parameters, letter by letter: the address is locked to the session. */
  lemma UsernameReads(account: string, country: string, session: string, minutes: int)
    requires AlphaNum(account) && AlphaNum(session) && 1 <= minutes <= 1440 && !("user-" <= account)
    requires country == "" || (AlphaNum(country) && |country| == 2 && Lower(country) == country)
    ensures Username(account, country, session, minutes) ==
            Ok("user-" + account + (if country == "" then "" else "-country-" + country)
               + "-session_iplock-" + session + "-sessionduration-" + Itoa(minutes))
  {
    PlainParams(account, country, session, minutes);
  }

  /** A leading "user-" of the account and the case of the country make no difference. */
  lemma SpellingsOfOneUser(account: string, country: string, session: string, minutes: int)
    requires AlphaNum(account) && !("user-" <= account)
    ensures Username("user-" + account, country, session, minutes) == Username(account, country, session, minutes)
    ensures AlphaNum(country) ==> Username(account, Lower(country), session, minutes) == Username(account, country, session, minutes)
  {
    AlphaNumIsTrimmed(account);
    assert ("user-" + account)[5..] == account;
    assert TrimSpace("user-" + account) == "user-" + account;
    if AlphaNum(country) {
      AlphaNumIsTrimmed(country);
      assert AlphaNum(Lower(country));
      AlphaNumIsTrimmed(Lower(country));
      assert Lower(Lower(country)) == Lower(country);
    }
  }
}
