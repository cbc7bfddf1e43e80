/**
 The licence and installation store (controller/activation/backend/store.go).

 `Data` is what the store keeps; `History` is a plain list of what ever happened. The methods of
 class Store follow the source statement by statement and are proved against functions on Data;
 the lemmas then say what those functions mean in terms of the history alone.

 hashSecret is modelled as an injective digest. Ids, keys, tokens, clock readings and the outcome
 of writing the file are inputs.
 */
module ActivationStore {
  import opened Common

  datatype Status = Active | Revoked

  datatype Digest = Digest(secret: string)

  datatype License = License(
    id: string, keyHash: Digest, status: Status, expires: Option<nat>, max: nat,
    proxyUser: string, proxyPass: string)

  datatype Installation = Installation(
    id: string, licenseId: string, tokenHash: Digest, lastSeen: nat, status: Status)

  datatype Data = Data(licenses: seq<License>, installations: seq<Installation>)

  datatype Error = InvalidKey | InvalidToken | Expired | LicenseRevoked | Limit | NoProxy | NoRandom | PersistFailed

  datatype Grant = Grant(installation: string, token: string, expires: Option<nat>, user: string, pass: string)

  datatype Result = Ok(grant: Grant) | Err(error: Error)

  datatype Proxy = Proxy(user: string, pass: string)

  // ---------------------------------------------------------------- keys

  function Upper(c: char): char {
    if 'a' <= c <= 'z' then c - 'a' + 'A' else c
  }

  function Squeeze(s: string): string {
    if s == [] then []
    else if s[0] == ' ' || s[0] == '-' then Squeeze(s[1..])
    else [Upper(s[0])] + Squeeze(s[1..])
  }

  /** Case, surrounding blanks, inner spaces and dashes of a key do not matter. */
  function NormalizeKey(key: string): string {
    Squeeze(TrimSpace(key))
  }

  function HashKey(key: string): Digest {
    Digest(NormalizeKey(key))
  }

  // ---------------------------------------------------------------- lookups

  function LicenseByKey(ls: seq<License>, h: Digest): nat
    ensures LicenseByKey(ls, h) <= |ls|
    ensures LicenseByKey(ls, h) < |ls| ==> ls[LicenseByKey(ls, h)].keyHash == h
    ensures forall i :: 0 <= i < LicenseByKey(ls, h) ==> ls[i].keyHash != h
  {
    if ls == [] || ls[0].keyHash == h then 0 else 1 + LicenseByKey(ls[1..], h)
  }

  function LicenseById(ls: seq<License>, id: string): nat
    ensures LicenseById(ls, id) <= |ls|
    ensures LicenseById(ls, id) < |ls| ==> ls[LicenseById(ls, id)].id == id
    ensures forall i :: 0 <= i < LicenseById(ls, id) ==> ls[i].id != id
  {
    if ls == [] || ls[0].id == id then 0 else 1 + LicenseById(ls[1..], id)
  }

  function InstallationById(xs: seq<Installation>, id: string): nat
    ensures InstallationById(xs, id) <= |xs|
    ensures InstallationById(xs, id) < |xs| ==> xs[InstallationById(xs, id)].id == id
    ensures forall i :: 0 <= i < InstallationById(xs, id) ==> xs[i].id != id
  {
    if xs == [] || xs[0].id == id then 0 else 1 + InstallationById(xs[1..], id)
  }

  predicate Reusable(x: Installation, id: string, lic: string) {
    x.id == id && x.licenseId == lic && x.status.Active?
  }

  function ReusableAt(xs: seq<Installation>, id: string, lic: string): nat
    ensures ReusableAt(xs, id, lic) <= |xs|
    ensures ReusableAt(xs, id, lic) < |xs| ==> Reusable(xs[ReusableAt(xs, id, lic)], id, lic)
    ensures forall i :: 0 <= i < ReusableAt(xs, id, lic) ==> !Reusable(xs[i], id, lic)
  {
    if xs == [] || Reusable(xs[0], id, lic) then 0 else 1 + ReusableAt(xs[1..], id, lic)
  }

  predicate Seat(x: Installation, lic: string) {
    x.licenseId == lic && x.status.Active?
  }

  /** Active installations of a licence. */
  function ActiveCount(xs: seq<Installation>, lic: string): nat {
    if xs == [] then 0
    else ActiveCount(xs[..|xs| - 1], lic) + if Seat(xs[|xs| - 1], lic) then 1 else 0
  }

  function Usable(l: License, now: nat): Option<Error> {
    if l.status.Revoked? then Some(LicenseRevoked)
    else if l.expires.Some? && now >= l.expires.value then Some(Expired)
    else None
  }

  function Credentials(l: License, fallback: Proxy): Proxy {
    Proxy(if l.proxyUser == "" then fallback.user else l.proxyUser,
          if l.proxyPass == "" then fallback.pass else l.proxyPass)
  }

  predicate HasCredentials(l: License, fallback: Proxy) {
    var c := Credentials(l, fallback);
    c.user != "" && c.pass != ""
  }

  /** A licence's own credentials win over the fallback, field by field, and neither may be empty. */
  predicate GrantedFrom(g: Grant, user: string, pass: string, fallback: Proxy) {
    && g.user != "" && g.pass != ""
    && (user != "" ==> g.user == user) && (user == "" ==> g.user == fallback.user)
    && (pass != "" ==> g.pass == pass) && (pass == "" ==> g.pass == fallback.pass)
  }

  /** Credentials are missing exactly when the licence and the fallback both lack one. */
  lemma MissingExactlyWhen(l: License, fallback: Proxy)
    ensures !HasCredentials(l, fallback) <==>
            (l.proxyUser == "" && fallback.user == "") || (l.proxyPass == "" && fallback.pass == "")
  {
  }

  // ---------------------------------------------------------------- keys that are the same

  /** No blanks but spaces. */
  predicate SpacesOnly(s: string) {
    forall i :: 0 <= i < |s| ==> s[i] !in "\t\r\n"
  }

  lemma {:induction false} SqueezeConcat(a: string, b: string)
    ensures Squeeze(a + b) == Squeeze(a) + Squeeze(b)
  {
    if a == [] {
      assert a + b == b;
    } else {
      assert (a + b)[1..] == a[1..] + b;
      SqueezeConcat(a[1..], b);
    }
  }

  lemma {:induction false} SqueezeLeft(s: string)
    requires SpacesOnly(s)
    ensures Squeeze(TrimLeft(s)) == Squeeze(s) && SpacesOnly(TrimLeft(s))
  {
    if s != [] && Space(s[0]) {
      assert s[0] == ' ';
      SqueezeLeft(s[1..]);
    }
  }

  lemma {:induction false} SqueezeRight(s: string)
    requires SpacesOnly(s)
    ensures Squeeze(TrimRight(s)) == Squeeze(s)
    decreases |s|
  {
    if s != [] && Space(s[|s| - 1]) {
      var front := s[..|s| - 1];
      assert s == front + [' '];
      SqueezeRight(front);
      SqueezeConcat(front, [' ']);
      assert Squeeze([' ']) == [];
    }
  }

  lemma PlainKey(s: string)
    requires SpacesOnly(s)
    ensures NormalizeKey(s) == Squeeze(s)
  {
    SqueezeLeft(s);
    SqueezeRight(TrimLeft(s));
  }

  lemma SqueezeSkips(a: string, b: string, c: char)
    requires c == ' ' || c == '-'
    ensures Squeeze(a + [c] + b) == Squeeze(a + b)
  {
    SqueezeConcat(a + [c], b);
    SqueezeConcat(a, [c]);
    SqueezeConcat(a, b);
    assert Squeeze([c]) == [];
  }

  /** Spaces and dashes anywhere in a key do not matter. */
  lemma KeySeparators(a: string, b: string, c: char)
    requires SpacesOnly(a) && SpacesOnly(b) && (c == ' ' || c == '-')
    ensures NormalizeKey(a + [c] + b) == NormalizeKey(a + b)
  {
    PlainKey(a + [c] + b);
    PlainKey(a + b);
    SqueezeSkips(a, b, c);
  }

  function UpperAll(s: string): string {
    seq(|s|, i requires 0 <= i < |s| => Upper(s[i]))
  }

  lemma {:induction false} TrimLeftUpper(s: string)
    ensures TrimLeft(UpperAll(s)) == UpperAll(TrimLeft(s))
  {
    if s != [] && Space(s[0]) {
      TrimLeftUpper(s[1..]);
      assert UpperAll(s)[1..] == UpperAll(s[1..]);
    }
  }

  lemma {:induction false} TrimRightUpper(s: string)
    ensures TrimRight(UpperAll(s)) == UpperAll(TrimRight(s))
  {
    if s != [] && Space(s[|s| - 1]) {
      TrimRightUpper(s[..|s| - 1]);
      assert UpperAll(s)[..|s| - 1] == UpperAll(s[..|s| - 1]);
    }
  }

  lemma {:induction false} SqueezeUpper(s: string)
    ensures Squeeze(UpperAll(s)) == Squeeze(s)
  {
    if s != [] {
      SqueezeUpper(s[1..]);
      assert UpperAll(s)[1..] == UpperAll(s[1..]);
    }
  }

  /** Neither does case. */
  lemma KeyCase(s: string)
    ensures NormalizeKey(UpperAll(s)) == NormalizeKey(s)
  {
    TrimLeftUpper(s);
    TrimRightUpper(TrimLeft(s));
    SqueezeUpper(TrimSpace(s));
  }

  lemma {:induction false} TrimLeftBlanks(w: string, s: string)
    requires forall i :: 0 <= i < |w| ==> Space(w[i])
    ensures TrimLeft(w + s) == TrimLeft(s)
  {
    if w == [] {
      assert w + s == s;
    } else {
      assert (w + s)[1..] == w[1..] + s;
      TrimLeftBlanks(w[1..], s);
    }
  }

  lemma {:induction false} TrimRightBlanks(s: string, w: string)
    requires forall i :: 0 <= i < |w| ==> Space(w[i])
    ensures TrimRight(s + w) == TrimRight(s)
    decreases |w|
  {
    if w == [] {
      assert s + w == s;
    } else {
      assert (s + w)[..|s + w| - 1] == s + w[..|w| - 1];
      TrimRightBlanks(s, w[..|w| - 1]);
    }
  }

  lemma {:induction false} TrimLeftAppend(s: string, w: string)
    requires forall i :: 0 <= i < |w| ==> Space(w[i])
    ensures if TrimLeft(s) == [] then TrimLeft(s + w) == [] else TrimLeft(s + w) == TrimLeft(s) + w
  {
    if s == [] {
      assert s + w == w && w + [] == w;
      TrimLeftBlanks(w, []);
    } else if Space(s[0]) {
      assert (s + w)[1..] == s[1..] + w;
      TrimLeftAppend(s[1..], w);
    }
  }

  /** Nor do blanks around it, tabs and line ends included. */
  lemma KeyBlanks(v: string, s: string, w: string)
    requires forall i :: 0 <= i < |v| ==> v[i] in " \t\r\n"
    requires forall i :: 0 <= i < |w| ==> w[i] in " \t\r\n"
    ensures NormalizeKey(v + (s + w)) == NormalizeKey(s)
  {
    TrimLeftBlanks(v, s + w);
    TrimLeftAppend(s, w);
    TrimRightBlanks(TrimLeft(s), w);
  }

  // ---------------------------------------------------------------- operations on Data

  datatype Op =
    | Issue(max: int, expires: Option<nat>, proxyUser: string, proxyPass: string, newId: string, key: string, random: bool)
    | Revoke(keyOrId: string)
    | Activate(key: string, installation: string, fallback: Proxy, newId: string, token: string, random: bool)
    | Validate(id: string, token: string, fallback: Proxy)
    | Deactivate(id: string, token: string)

  /** What an operation adds to the history. */
  datatype Event =
    | Issued(lic: string, expires: Option<nat>, max: nat)
    | RevokedLicense(lic: string)
    | Seated(id: string, lic: string, token: string)
    | Rotated(id: string, token: string)
    | Released(id: string, lic: string)

  type History = seq<Event>

  predicate RevokeHits(l: License, keyOrId: string) {
    l.id == keyOrId || l.keyHash == HashKey(keyOrId)
  }

  function RevokeAll(ls: seq<License>, keyOrId: string): seq<License> {
    seq(|ls|, i requires 0 <= i < |ls| => if RevokeHits(ls[i], keyOrId) then ls[i].(status := Revoked) else ls[i])
  }

  function RevokeEvents(ls: seq<License>, keyOrId: string): History {
    if ls == [] then []
    else RevokeEvents(ls[..|ls| - 1], keyOrId) +
         if RevokeHits(ls[|ls| - 1], keyOrId) then [RevokedLicense(ls[|ls| - 1].id)] else []
  }

  /** The checks of Validate, in order. */
  function ValidateChecks(d: Data, id: string, token: string, now: nat): Option<Error> {
    var i := InstallationById(d.installations, id);
    if i == |d.installations| || d.installations[i].tokenHash != Digest(token) then Some(InvalidToken)
    else if d.installations[i].status.Revoked? then Some(LicenseRevoked)
    else
      var l := LicenseById(d.licenses, d.installations[i].licenseId);
      if l == |d.licenses| then Some(InvalidToken) else Usable(d.licenses[l], now)
  }

  /** The checks of Activate that come before anything is changed. */
  function ActivateChecks(d: Data, op: Op, now: nat): Option<Error>
    requires op.Activate?
  {
    var l := LicenseByKey(d.licenses, HashKey(op.key));
    if l == |d.licenses| then Some(InvalidKey)
    else
      var lic := d.licenses[l];
      if Usable(lic, now).Some? then Usable(lic, now)
      else if !op.random then Some(NoRandom)
      else if op.installation != "" && ReusableAt(d.installations, op.installation, lic.id) < |d.installations| then None
      else if ActiveCount(d.installations, lic.id) >= lic.max then Some(Limit)
      else None
  }

  /** The data an operation leaves behind, whatever it returns. */
  function Next(d: Data, op: Op, now: nat): Data {
    match op
    case Issue(max, expires, user, pass, newId, key, random) =>
      if !random then d
      else d.(licenses := d.licenses + [License(newId, HashKey(key), Active, expires, if max < 1 then 1 else max, user, pass)])
    case Revoke(keyOrId) => d.(licenses := RevokeAll(d.licenses, keyOrId))
    case Activate(key, installation, _, newId, token, _) =>
      if ActivateChecks(d, op, now).Some? then d
      else
        var lic := d.licenses[LicenseByKey(d.licenses, HashKey(key))];
        var i := ReusableAt(d.installations, installation, lic.id);
        if installation != "" && i < |d.installations| then
          d.(installations := d.installations[i := d.installations[i].(tokenHash := Digest(token), lastSeen := now)])
        else
          d.(installations := d.installations + [Installation(newId, lic.id, Digest(token), now, Active)])
    case Validate(id, token, _) =>
      if ValidateChecks(d, id, token, now).Some? then d
      else
        var i := InstallationById(d.installations, id);
        d.(installations := d.installations[i := d.installations[i].(lastSeen := now)])
    case Deactivate(id, token) =>
      var i := InstallationById(d.installations, id);
      if i == |d.installations| || d.installations[i].tokenHash != Digest(token) then d
      else d.(installations := d.installations[i := d.installations[i].(status := Revoked, lastSeen := now)])
  }

  function Events(d: Data, op: Op, now: nat): History {
    match op
    case Issue(max, expires, _, _, newId, _, random) =>
      if random then [Issued(newId, expires, if max < 1 then 1 else max)] else []
    case Revoke(keyOrId) => RevokeEvents(d.licenses, keyOrId)
    case Activate(key, installation, _, newId, token, _) =>
      if ActivateChecks(d, op, now).Some? then []
      else
        var lic := d.licenses[LicenseByKey(d.licenses, HashKey(key))];
        if installation != "" && ReusableAt(d.installations, installation, lic.id) < |d.installations| then
          [Rotated(installation, token)]
        else [Seated(newId, lic.id, token)]
    case Validate(_, _, _) => []
    case Deactivate(id, token) =>
      var i := InstallationById(d.installations, id);
      if i == |d.installations| || d.installations[i].tokenHash != Digest(token) || d.installations[i].status.Revoked? then []
      else [Released(id, d.installations[i].licenseId)]
  }

  // ---------------------------------------------------------------- the store itself

  class Store {
    var licenses: seq<License>
    var installations: seq<Installation>
    /** Everything that ever happened to this store. */
    ghost var history: History

    ghost function View(): Data
      reads this
    {
      Data(licenses, installations)
    }

    constructor ()
      ensures View() == Data([], []) && history == []
    {
      licenses := [];
      installations := [];
      history := [];
    }

    method CountActive(lic: string) returns (n: nat)
      ensures n == ActiveCount(installations, lic)
    {
      n := 0;
      for i := 0 to |installations|
        invariant n == ActiveCount(installations[..i], lic)
      {
        assert installations[..i + 1][..i] == installations[..i];
        if installations[i].licenseId == lic && installations[i].status.Active? {
          n := n + 1;
        }
      }
      assert installations[..|installations|] == installations;
    }

    method FindLicense(hash: Digest) returns (l: nat)
      ensures l == LicenseByKey(licenses, hash)
    {
      l := 0;
      while l < |licenses|
        invariant l <= |licenses|
        invariant LicenseByKey(licenses, hash) == l + LicenseByKey(licenses[l..], hash)
      {
        if licenses[l].keyHash == hash {
          return;
        }
        l := l + 1;
      }
    }

    method FindLicenseById(id: string) returns (l: nat)
      ensures l == LicenseById(licenses, id)
    {
      l := 0;
      while l < |licenses|
        invariant l <= |licenses|
        invariant LicenseById(licenses, id) == l + LicenseById(licenses[l..], id)
      {
        if licenses[l].id == id {
          return;
        }
        l := l + 1;
      }
    }

    /** The active installation a repeated activation reuses. */
    method FindReusable(id: string, lic: string) returns (i: nat)
      ensures i == ReusableAt(installations, id, lic)
    {
      i := 0;
      while i < |installations|
        invariant i <= |installations|
        invariant ReusableAt(installations, id, lic) == i + ReusableAt(installations[i..], id, lic)
      {
        if installations[i].id == id && installations[i].licenseId == lic && installations[i].status.Active? {
          return;
        }
        i := i + 1;
      }
    }

    method FindInstallation(id: string) returns (i: nat)
      ensures i == InstallationById(installations, id)
    {
      i := 0;
      while i < |installations|
        invariant i <= |installations|
        invariant InstallationById(installations, id) == i + InstallationById(installations[i..], id)
      {
        if installations[i].id == id {
          return;
        }
        i := i + 1;
      }
    }

    /** `random`: a key could be drawn. */
    method IssueLicense(max: int, expires: Option<nat>, user: string, pass: string, newId: string, key: string,
                        random: bool, persistOk: bool)
      returns (err: Option<Error>)
      modifies this
      ensures var op := Issue(max, expires, user, pass, newId, key, random);
              && View() == Next(old(View()), op, 0)
              && history == old(history) + Events(old(View()), op, 0)
      ensures err == if !random then Some(NoRandom) else if persistOk then None else Some(PersistFailed)
    {
      var seats := max;
      if max < 1 {
        seats := 1;
      }
      if !random {
        return Some(NoRandom);
      }
      licenses := licenses + [License(newId, HashKey(key), Active, expires, seats, user, pass)];
      history := history + [Issued(newId, expires, seats)];
      err := if persistOk then None else Some(PersistFailed);
    }

    /** The loop of Revoke. */
    method MarkRevoked(keyOrId: string) returns (found: bool)
      modifies this`licenses
      ensures licenses == RevokeAll(old(licenses), keyOrId)
      ensures found <==> RevokeEvents(old(licenses), keyOrId) != []
    {
      var hash := HashKey(keyOrId);
      found := false;
      ghost var before := licenses;
      assert before[..0] == [];
      for i := 0 to |licenses|
        invariant |licenses| == |before|
        invariant licenses == RevokedTo(before, i, keyOrId)
        invariant found <==> RevokeEvents(before[..i], keyOrId) != []
      {
        RevokeTurn(before, i, keyOrId);
        if licenses[i].id == keyOrId || licenses[i].keyHash == hash {
          licenses := licenses[i := licenses[i].(status := Revoked)];
          found := true;
        }
      }
      assert before[..|before|] == before;
    }

    method RevokeLicense(keyOrId: string, persistOk: bool) returns (err: Option<Error>)
      modifies this
      ensures View() == Next(old(View()), Revoke(keyOrId), 0)
      ensures history == old(history) + Events(old(View()), Revoke(keyOrId), 0)
      ensures err == Some(InvalidKey) <==>
              forall l :: l in old(licenses) ==> l.id != keyOrId && l.keyHash != Digest(NormalizeKey(keyOrId))
      ensures err == Some(InvalidKey) ==> View() == old(View())
      ensures err != Some(InvalidKey) ==> err == if persistOk then None else Some(PersistFailed)
    {
      NoneHit(licenses, keyOrId);
      history := history + RevokeEvents(licenses, keyOrId);
      var found := MarkRevoked(keyOrId);
      if !found {
        return Some(InvalidKey);
      }
      err := if persistOk then None else Some(PersistFailed);
    }

    /** A failure after the checks still leaves the seat taken or the token rotated. */
    method ActivateInstallation(op: Op, now: nat, persistOk: bool) returns (r: Result)
      requires op.Activate?
      modifies this
      ensures View() == Next(old(View()), op, now)
      ensures history == old(history) + Events(old(View()), op, now)
      ensures ActivateChecks(old(View()), op, now).Some? ==> r == Err(ActivateChecks(old(View()), op, now).value)
      ensures ActivateChecks(old(View()), op, now).None? ==>
                var lic := old(licenses)[LicenseByKey(old(licenses), HashKey(op.key))];
                r == if !HasCredentials(lic, op.fallback) then Err(NoProxy)
                     else if !persistOk then Err(PersistFailed)
                     else
                       var reuse := op.installation != "" && ReusableAt(old(installations), op.installation, lic.id) < |old(installations)|;
                       Ok(Grant(if reuse then op.installation else op.newId, op.token, lic.expires,
                                Credentials(lic, op.fallback).user, Credentials(lic, op.fallback).pass))
      ensures r.Ok? ==> var lic := old(licenses)[LicenseByKey(old(licenses), HashKey(op.key))];
                GrantedFrom(r.grant, lic.proxyUser, lic.proxyPass, op.fallback)
    {
      var l := FindLicense(HashKey(op.key));
      if l == |licenses| {
        return Err(InvalidKey);
      }
      var lic := licenses[l];
      var bad := Usable(lic, now);
      if bad.Some? {
        return Err(bad.value);
      }
      var i := |installations|;
      if op.installation != "" {
        i := FindReusable(op.installation, lic.id);
      }
      if !op.random {
        return Err(NoRandom);
      }
      var id;
      if i == |installations| {
        var n := CountActive(lic.id);
        if n >= lic.max {
          return Err(Limit);
        }
        installations := installations + [Installation(op.newId, lic.id, Digest(op.token), now, Active)];
        history := history + [Seated(op.newId, lic.id, op.token)];
        id := op.newId;
      } else {
        installations := installations[i := installations[i].(tokenHash := Digest(op.token), lastSeen := now)];
        history := history + [Rotated(op.installation, op.token)];
        id := op.installation;
      }
      var c := Credentials(lic, op.fallback);
      if c.user == "" || c.pass == "" {
        return Err(NoProxy);
      }
      if !persistOk {
        return Err(PersistFailed);
      }
      r := Ok(Grant(id, op.token, lic.expires, c.user, c.pass));
    }

    method ValidateInstallation(id: string, token: string, fallback: Proxy, now: nat, persistOk: bool) returns (r: Result)
      modifies this
      ensures View() == Next(old(View()), Validate(id, token, fallback), now)
      ensures history == old(history)
      ensures ValidateChecks(old(View()), id, token, now).Some? ==>
                r == Err(ValidateChecks(old(View()), id, token, now).value)
      ensures ValidateChecks(old(View()), id, token, now).None? ==>
                var x := old(installations)[InstallationById(old(installations), id)];
                var lic := licenses[LicenseById(licenses, x.licenseId)];
                r == if !HasCredentials(lic, fallback) then Err(NoProxy)
                     else if !persistOk then Err(PersistFailed)
                     else Ok(Grant(id, token, lic.expires, Credentials(lic, fallback).user, Credentials(lic, fallback).pass))
      ensures r.Ok? ==>
                var lic := licenses[LicenseById(licenses, old(installations)[InstallationById(old(installations), id)].licenseId)];
                GrantedFrom(r.grant, lic.proxyUser, lic.proxyPass, fallback)
    {
      var i := FindInstallation(id);
      if i == |installations| || installations[i].tokenHash != Digest(token) {
        return Err(InvalidToken);
      }
      if !installations[i].status.Active? {
        return Err(LicenseRevoked);
      }
      var l := FindLicenseById(installations[i].licenseId);
      if l == |licenses| {
        return Err(InvalidToken);
      }
      var bad := Usable(licenses[l], now);
      if bad.Some? {
        return Err(bad.value);
      }
      installations := installations[i := installations[i].(lastSeen := now)];
      var c := Credentials(licenses[l], fallback);
      if c.user == "" || c.pass == "" {
        return Err(NoProxy);
      }
      if !persistOk {
        return Err(PersistFailed);
      }
      r := Ok(Grant(id, token, licenses[l].expires, c.user, c.pass));
    }

    method DeactivateInstallation(id: string, token: string, now: nat, persistOk: bool) returns (err: Option<Error>)
      modifies this
      ensures View() == Next(old(View()), Deactivate(id, token), now)
      ensures history == old(history) + Events(old(View()), Deactivate(id, token), now)
      ensures err == Some(InvalidToken) <==>
              InstallationById(old(installations), id) == |old(installations)| ||
              old(installations)[InstallationById(old(installations), id)].tokenHash != Digest(token)
      ensures err != Some(InvalidToken) ==> err == if persistOk then None else Some(PersistFailed)
    {
      var i := FindInstallation(id);
      if i == |installations| || installations[i].tokenHash != Digest(token) {
        return Some(InvalidToken);
      }
      if installations[i].status.Active? {
        history := history + [Released(id, installations[i].licenseId)];
      }
      installations := installations[i := installations[i].(status := Revoked, lastSeen := now)];
      err := if persistOk then None else Some(PersistFailed);
    }
  }

  /** The licences when the first `i` have been looked at. */
  ghost function RevokedTo(ls: seq<License>, i: nat, k: string): seq<License>
    requires i <= |ls|
  {
    RevokeAll(ls[..i], k) + ls[i..]
  }

  lemma RevokeTurn(ls: seq<License>, i: nat, k: string)
    requires i < |ls|
    ensures var l, now := ls[i], RevokedTo(ls, i, k);
      && |now| == |ls| && now[i] == l
      && RevokedTo(ls, i + 1, k) == now[i := if RevokeHits(l, k) then l.(status := Revoked) else l]
      && RevokeEvents(ls[..i + 1], k) == RevokeEvents(ls[..i], k) + if RevokeHits(l, k) then [RevokedLicense(l.id)] else []
  {
    assert ls[..i + 1][..i] == ls[..i];
    assert ls[i..] == [ls[i]] + ls[i + 1..];
    assert RevokeAll(ls[..i + 1], k)[..i] == RevokeAll(ls[..i], k);
  }

  /** Revoking records nothing exactly when no licence is hit, and then changes nothing. */
  lemma NoneHit(ls: seq<License>, k: string)
    ensures RevokeEvents(ls, k) == [] <==> forall l :: l in ls ==> l.id != k && l.keyHash != Digest(NormalizeKey(k))
    ensures RevokeEvents(ls, k) == [] ==> RevokeAll(ls, k) == ls
  {
    RevokeEventsAre(ls, k);
    if RevokeEvents(ls, k) == [] {
      forall l | l in ls
        ensures !RevokeHits(l, k)
      {
        assert RevokedLicense(l.id) !in RevokeEvents(ls, k);
      }
    } else {
      assert RevokeEvents(ls, k)[0] in RevokeEvents(ls, k);
    }
  }

  // ---------------------------------------------------------------- operations, one after another

  /** Revoke marks the licences with that id or that key and no others; nothing else of them changes. */
  lemma RevokeMarks(d: Data, k: string, now: nat, i: nat)
    requires i < |d.licenses|
    ensures var l, l' := d.licenses[i], Next(d, Revoke(k), now).licenses[i];
            l' == if l.id == k || l.keyHash == Digest(NormalizeKey(k)) then l.(status := Revoked) else l
    ensures |Next(d, Revoke(k), now).licenses| == |d.licenses| && Next(d, Revoke(k), now).installations == d.installations
  {
  }

  lemma {:induction false} SameKeyHashes(a: seq<License>, b: seq<License>, h: Digest)
    requires |a| == |b| && forall i :: 0 <= i < |a| ==> a[i].keyHash == b[i].keyHash
    ensures LicenseByKey(a, h) == LicenseByKey(b, h)
  {
    if a != [] {
      SameKeyHashes(a[1..], b[1..], h);
    }
  }

  /** After Revoke by key or by id, activating with the key of a licence it names is refused as revoked. */
  lemma RevokedRefusesActivate(d: Data, k: string, at: nat, op: Op, now: nat)
    requires op.Activate? && LicenseByKey(d.licenses, HashKey(op.key)) < |d.licenses|
    requires var l := d.licenses[LicenseByKey(d.licenses, HashKey(op.key))]; NormalizeKey(op.key) == NormalizeKey(k) || l.id == k
    ensures ActivateChecks(Next(d, Revoke(k), at), op, now) == Some(LicenseRevoked)
  {
    var d' := Next(d, Revoke(k), at);
    SameKeyHashes(d.licenses, d'.licenses, HashKey(op.key));
    RevokeMarks(d, k, at, LicenseByKey(d.licenses, HashKey(op.key)));
  }

  lemma {:induction false} KeyFoundLast(ls: seq<License>, l: License, h: Digest)
    requires LicenseByKey(ls, h) == |ls| && l.keyHash == h
    ensures LicenseByKey(ls + [l], h) == |ls|
  {
    if ls != [] {
      assert (ls + [l])[1..] == ls[1..] + [l];
      KeyFoundLast(ls[1..], l, h);
    }
  }

  /** A licence issued under a new key can be activated with it, has at least one seat, and is lost by revoking the key. */
  lemma IssueActivateRevoke(d: Data, issue: Op, activate: Op, now: nat)
    requires issue.Issue? && issue.random && activate.Activate? && activate.random && activate.installation == ""
    requires NormalizeKey(activate.key) == NormalizeKey(issue.key) && LicenseByKey(d.licenses, HashKey(issue.key)) == |d.licenses|
    requires forall x :: x in d.installations ==> x.licenseId != issue.newId
    ensures var d' := Next(d, issue, now);
      && d'.licenses[|d.licenses|].max == (if issue.max >= 1 then issue.max else 1)
      && (issue.expires.None? || now < issue.expires.value ==> ActivateChecks(d', activate, now) == None)
      && (issue.expires.Some? && now >= issue.expires.value ==> ActivateChecks(d', activate, now) == Some(Expired))
      && ActivateChecks(Next(d', Revoke(issue.key), now), activate, now) == Some(LicenseRevoked)
  {
    var d' := Next(d, issue, now);
    KeyFoundLast(d.licenses, d'.licenses[|d.licenses|], HashKey(issue.key));
    NoSeats(d.installations, issue.newId);
    RevokedRefusesActivate(d', issue.key, now, activate, now);
  }

  /** Activating again for an active installation of the same licence takes no further seat; otherwise one is taken. */
  lemma ActivateSeats(d: Data, op: Op, now: nat)
    requires op.Activate? && ActivateChecks(d, op, now).None?
    ensures var lic := d.licenses[LicenseByKey(d.licenses, HashKey(op.key))];
            var again := op.installation != "" &&
                         exists x :: x in d.installations && x.id == op.installation && x.licenseId == lic.id && x.status.Active?;
            var xs := Next(d, op, now).installations;
            if again then |xs| == |d.installations|
            else xs == d.installations + [Installation(op.newId, lic.id, Digest(op.token), now, Active)]
  {
    var lic := d.licenses[LicenseByKey(d.licenses, HashKey(op.key))];
    var i := ReusableAt(d.installations, op.installation, lic.id);
    if i < |d.installations| {
      assert d.installations[i] in d.installations;
    }
  }

  /** An accepted Validate notes the time on its installation and changes nothing else; a refused one changes nothing. */
  lemma ValidateTouches(d: Data, id: string, token: string, fallback: Proxy, now: nat, j: nat)
    requires j < |d.installations|
    ensures var d' := Next(d, Validate(id, token, fallback), now);
      && d'.licenses == d.licenses && |d'.installations| == |d.installations|
      && d'.installations[j] ==
           if ValidateChecks(d, id, token, now).None? && j == InstallationById(d.installations, id)
           then d.installations[j].(lastSeen := now) else d.installations[j]
  {
  }

  /** A deactivated installation is refused at once. */
  lemma DeactivatedIsRefused(d: Data, id: string, token: string, now: nat)
    requires ValidateChecks(d, id, token, now).None?
    ensures ValidateChecks(Next(d, Deactivate(id, token), now), id, token, now) == Some(LicenseRevoked)
  {
    var i := InstallationById(d.installations, id);
    var d' := Next(d, Deactivate(id, token), now);
    SameIds(d.installations, d'.installations, id);
  }

  lemma {:induction false} SameIds(a: seq<Installation>, b: seq<Installation>, id: string)
    requires |a| == |b| && forall i :: 0 <= i < |a| ==> a[i].id == b[i].id
    ensures InstallationById(a, id) == InstallationById(b, id)
  {
    if a != [] {
      SameIds(a[1..], b[1..], id);
    }
  }

  // ---------------------------------------------------------------- what the history says

  /** The newest token minted for an installation. */
  function LatestToken(h: History, id: string): Option<string> {
    if h == [] then None
    else match h[|h| - 1] {
      case Seated(i, _, token) => if i == id then Some(token) else LatestToken(h[..|h| - 1], id)
      case Rotated(i, token) => if i == id then Some(token) else LatestToken(h[..|h| - 1], id)
      case _ => LatestToken(h[..|h| - 1], id)
    }
  }

  ghost predicate SeatedAs(h: History, id: string, lic: string) {
    exists token :: Seated(id, lic, token) in h
  }

  ghost predicate WasReleased(h: History, id: string) {
    exists lic :: Released(id, lic) in h
  }

  ghost predicate ExpiredBy(h: History, lic: string, now: nat) {
    exists e: nat, max :: Issued(lic, Some(e), max) in h && e <= now
  }

  /** The licence behind an installation can no longer be used. */
  ghost predicate LicenceGone(h: History, id: string, now: nat) {
    exists lic :: SeatedAs(h, id, lic) && (RevokedLicense(lic) in h || ExpiredBy(h, lic, now))
  }

  /** The specification of Validate: latest token, never released, licence neither revoked nor expired. */
  ghost predicate Authorised(h: History, id: string, token: string, now: nat) {
    LatestToken(h, id) == Some(token) && !WasReleased(h, id) && !LicenceGone(h, id, now)
  }

  // ---------------------------------------------------------------- refinement

  ghost predicate Holds(ls: seq<License>, lic: string) {
    exists l :: l in ls && l.id == lic
  }

  ghost predicate Knows(xs: seq<Installation>, id: string) {
    exists x :: x in xs && x.id == id
  }

  ghost predicate LicenseMatches(l: License, h: History) {
    && Issued(l.id, l.expires, l.max) in h
    && (forall e, max :: Issued(l.id, e, max) in h ==> e == l.expires && max == l.max)
    && (l.status.Revoked? <==> RevokedLicense(l.id) in h)
  }

  ghost predicate LicensesMatch(d: Data, h: History) {
    && (forall i, j :: 0 <= i < j < |d.licenses| ==> d.licenses[i].id != d.licenses[j].id)
    && (forall l :: l in d.licenses ==> LicenseMatches(l, h))
    && (forall e :: e in h && (e.Issued? || e.RevokedLicense?) ==> Holds(d.licenses, e.lic))
  }

  ghost predicate InstallationMatches(x: Installation, h: History) {
    && LatestToken(h, x.id) == Some(x.tokenHash.secret)
    && (forall lic, token :: Seated(x.id, lic, token) in h ==> lic == x.licenseId)
    && SeatedAs(h, x.id, x.licenseId)
    && (x.status.Revoked? <==> WasReleased(h, x.id))
  }

  ghost predicate InstallationsMatch(d: Data, h: History) {
    && (forall i, j :: 0 <= i < j < |d.installations| ==> d.installations[i].id != d.installations[j].id)
    && (forall x :: x in d.installations ==> InstallationMatches(x, h))
    && (forall id :: LatestToken(h, id).Some? || WasReleased(h, id) ==> Knows(d.installations, id))
    && (forall x :: x in d.installations ==> Holds(d.licenses, x.licenseId))
  }

  ghost predicate Refines(d: Data, h: History) {
    LicensesMatch(d, h) && InstallationsMatch(d, h)
  }

  /** Random ids and tokens are fresh. */
  ghost predicate FreshInputs(d: Data, h: History, op: Op) {
    match op
    case Issue(_, _, _, _, newId, _, _) => forall l :: l in d.licenses ==> l.id != newId
    case Activate(_, _, _, newId, token, _) => (forall x :: x in d.installations ==> x.id != newId) && !Minted(h, token)
    case _ => true
  }

  ghost predicate Minted(h: History, token: string) {
    exists e :: e in h && ((e.Seated? || e.Rotated?) && e.token == token)
  }

  /** Token of an event for an installation, if it mints one. */
  predicate Mints(e: Event, id: string) {
    (e.Seated? || e.Rotated?) && e.id == id
  }

  lemma {:induction false} LatestAppend(h: History, es: History, id: string)
    requires forall e :: e in es ==> !Mints(e, id)
    ensures LatestToken(h + es, id) == LatestToken(h, id)
  {
    if es == [] {
      assert h + es == h;
    } else {
      var front := es[..|es| - 1];
      LatestAppend(h, front, id);
      assert (h + es)[..|h + es| - 1] == h + front;
      assert es[|es| - 1] in es;
    }
  }

  lemma LatestMint(h: History, e: Event, id: string)
    requires Mints(e, id)
    ensures LatestToken(h + [e], id) == Some(e.token)
  {
  }

  lemma {:induction false} RevokeEventsAre(ls: seq<License>, k: string)
    ensures forall e :: e in RevokeEvents(ls, k) <==> exists l :: l in ls && RevokeHits(l, k) && e == RevokedLicense(l.id)
  {
    if ls != [] {
      var front, last := ls[..|ls| - 1], ls[|ls| - 1];
      RevokeEventsAre(front, k);
      assert ls == front + [last];
      forall e
        ensures e in RevokeEvents(ls, k) <==> exists l :: l in ls && RevokeHits(l, k) && e == RevokedLicense(l.id)
      {
        if exists l :: l in ls && RevokeHits(l, k) && e == RevokedLicense(l.id) {
          var l :| l in ls && RevokeHits(l, k) && e == RevokedLicense(l.id);
          assert l in front || l == last;
        }
      }
    }
  }

  /** Events that mint no token and release nobody leave every installation's story unchanged. */
  lemma InstallationsUnaffected(d: Data, d': Data, h: History, es: History)
    requires InstallationsMatch(d, h)
    requires d'.installations == d.installations
    requires forall e :: e in es ==> e.Issued? || e.RevokedLicense?
    requires forall lic :: Holds(d.licenses, lic) ==> Holds(d'.licenses, lic)
    ensures InstallationsMatch(d', h + es)
  {
    forall id
      ensures LatestToken(h + es, id) == LatestToken(h, id)
      ensures WasReleased(h + es, id) <==> WasReleased(h, id)
      ensures forall lic :: SeatedAs(h + es, id, lic) <==> SeatedAs(h, id, lic)
    {
      LatestAppend(h, es, id);
    }
  }

  lemma IssueRefines(d: Data, h: History, op: Op, now: nat)
    requires Refines(d, h) && op.Issue? && op.random && FreshInputs(d, h, op)
    ensures Refines(Next(d, op, now), h + Events(d, op, now))
  {
    var d', es := Next(d, op, now), Events(d, op, now);
    var l := d'.licenses[|d.licenses|];
    assert d'.licenses == d.licenses + [l];
    forall lic | Holds(d.licenses, lic)
      ensures Holds(d'.licenses, lic)
    {
      HoldsMore(d.licenses, l, lic);
    }
    InstallationsUnaffected(d, d', h, es);
    IssueKeepsLicenses(d, h, op, now);
  }

  lemma HoldsMore(ls: seq<License>, l: License, lic: string)
    ensures Holds(ls, lic) ==> Holds(ls + [l], lic)
    ensures Holds(ls + [l], l.id)
  {
    if Holds(ls, lic) {
      var m :| m in ls && m.id == lic;
      assert m in ls + [l];
    }
    assert l in ls + [l];
  }

  /** An event about another licence leaves what the history says of this one. */
  lemma OtherIssued(l: License, h: History, e: Event)
    requires LicenseMatches(l, h) && e.Issued? && e.lic != l.id
    ensures LicenseMatches(l, h + [e])
  {
  }

  /** A new licence is what its event says, if the history did not know it. */
  lemma NewIssued(l: License, h: History)
    requires l.status.Active? && forall e :: e in h && (e.Issued? || e.RevokedLicense?) ==> e.lic != l.id
    ensures LicenseMatches(l, h + [Issued(l.id, l.expires, l.max)])
  {
    assert (h + [Issued(l.id, l.expires, l.max)])[|h|] == Issued(l.id, l.expires, l.max);
  }

  lemma IssueKeepsLicenses(d: Data, h: History, op: Op, now: nat)
    requires LicensesMatch(d, h) && op.Issue? && op.random && FreshInputs(d, h, op)
    ensures LicensesMatch(Next(d, op, now), h + Events(d, op, now))
  {
    var d', es := Next(d, op, now), Events(d, op, now);
    var l := d'.licenses[|d.licenses|];
    assert d'.licenses == d.licenses + [l] && !Holds(d.licenses, l.id);
    assert es == [Issued(l.id, l.expires, l.max)];
    NewIssued(l, h);
    forall l' | l' in d'.licenses
      ensures LicenseMatches(l', h + es)
    {
      if l' != l {
        OtherIssued(l', h, es[0]);
      }
    }
    forall e | e in h + es && (e.Issued? || e.RevokedLicense?)
      ensures Holds(d'.licenses, e.lic)
    {
      HoldsMore(d.licenses, l, e.lic);
    }
  }

  /** After Revoke, a licence is marked exactly when the history says so. */
  lemma RevokedStatus(d: Data, h: History, k: string, i: nat)
    requires LicensesMatch(d, h) && i < |d.licenses|
    ensures RevokeAll(d.licenses, k)[i].status.Revoked? <==> RevokedLicense(d.licenses[i].id) in h + RevokeEvents(d.licenses, k)
  {
    var l := d.licenses[i];
    RevokeEventsAre(d.licenses, k);
    assert l in d.licenses;
    if RevokedLicense(l.id) in RevokeEvents(d.licenses, k) {
      var m :| m in d.licenses && RevokeHits(m, k) && m.id == l.id;
      var j :| 0 <= j < |d.licenses| && d.licenses[j] == m;
      assert i == j;
    }
  }

  lemma RevokeKeepsIds(ls: seq<License>, k: string, lic: string)
    requires Holds(ls, lic)
    ensures Holds(RevokeAll(ls, k), lic)
  {
    var l :| l in ls && l.id == lic;
    var i :| 0 <= i < |ls| && ls[i] == l;
    assert RevokeAll(ls, k)[i] in RevokeAll(ls, k);
  }

  lemma RevokeKeepsLicenses(d: Data, h: History, k: string)
    requires LicensesMatch(d, h)
    ensures LicensesMatch(d.(licenses := RevokeAll(d.licenses, k)), h + RevokeEvents(d.licenses, k))
  {
    var ls, es := RevokeAll(d.licenses, k), RevokeEvents(d.licenses, k);
    RevokeEventsAre(d.licenses, k);
    forall l' | l' in ls
      ensures LicenseMatches(l', h + es)
    {
      var i :| 0 <= i < |ls| && ls[i] == l';
      assert d.licenses[i] in d.licenses;
      RevokedStatus(d, h, k, i);
    }
    forall e | e in h + es && (e.Issued? || e.RevokedLicense?)
      ensures Holds(ls, e.lic)
    {
      assert Holds(d.licenses, e.lic);
      RevokeKeepsIds(d.licenses, k, e.lic);
    }
  }

  lemma RevokeRefines(d: Data, h: History, op: Op, now: nat)
    requires Refines(d, h) && op.Revoke?
    ensures Refines(Next(d, op, now), h + Events(d, op, now))
  {
    RevokeKeepsLicenses(d, h, op.keyOrId);
    RevokeEventsAre(d.licenses, op.keyOrId);
    forall lic | Holds(d.licenses, lic)
      ensures Holds(Next(d, op, now).licenses, lic)
    {
      RevokeKeepsIds(d.licenses, op.keyOrId, lic);
    }
    InstallationsUnaffected(d, Next(d, op, now), h, Events(d, op, now));
  }

  lemma LicensesUnaffected(d: Data, d': Data, h: History, e: Event)
    requires LicensesMatch(d, h) && d'.licenses == d.licenses && !e.Issued? && !e.RevokedLicense?
    ensures LicensesMatch(d', h + [e])
  {
  }

  /** One new event about `id`: what it leaves unchanged for everybody else. */
  lemma OthersUnaffected(h: History, e: Event, x: Installation)
    requires InstallationMatches(x, h)
    requires (e.Seated? || e.Rotated? || e.Released?) && e.id != x.id
    ensures InstallationMatches(x, h + [e])
  {
    LatestAppend(h, [e], x.id);
  }

  lemma SeatRefines(d: Data, h: History, x: Installation)
    requires Refines(d, h) && x.status.Active?
    requires forall y :: y in d.installations ==> y.id != x.id
    requires Holds(d.licenses, x.licenseId)
    ensures Refines(d.(installations := d.installations + [x]), h + [Seated(x.id, x.licenseId, x.tokenHash.secret)])
  {
    var e := Seated(x.id, x.licenseId, x.tokenHash.secret);
    var d' := d.(installations := d.installations + [x]);
    LicensesUnaffected(d, d', h, e);
    assert !Knows(d.installations, x.id);
    assert LatestToken(h, x.id).None? && !WasReleased(h, x.id);
    SeatedHasToken(h, x.id);
    LatestMint(h, e, x.id);
    assert e in h + [e];
    assert InstallationMatches(x, h + [e]);
    forall y | y in d.installations
      ensures InstallationMatches(y, h + [e]) && y in d'.installations
    {
      OthersUnaffected(h, e, y);
    }
    assert x in d'.installations;
    assert Knows(d'.installations, x.id);
    forall id | Knows(d.installations, id)
      ensures Knows(d'.installations, id)
    {
      var y :| y in d.installations && y.id == id;
      assert y in d'.installations;
    }
    StoriesCovered(d, d', h, e);
  }

  /** Whoever was seated has a token. */
  lemma {:induction false} SeatedHasToken(h: History, id: string)
    ensures LatestToken(h, id).None? ==> forall lic, token :: Seated(id, lic, token) !in h
  {
    if h != [] {
      SeatedHasToken(h[..|h| - 1], id);
      assert h == h[..|h| - 1] + [h[|h| - 1]];
    }
  }

  /** Every installation the history knows is still in the table. */
  lemma StoriesCovered(d: Data, d': Data, h: History, e: Event)
    requires InstallationsMatch(d, h) && (e.Seated? || e.Rotated? || e.Released?)
    requires Knows(d'.installations, e.id)
    requires forall id :: Knows(d.installations, id) ==> Knows(d'.installations, id)
    ensures forall id :: LatestToken(h + [e], id).Some? || WasReleased(h + [e], id) ==> Knows(d'.installations, id)
  {
    forall id | LatestToken(h + [e], id).Some? || WasReleased(h + [e], id)
      ensures Knows(d'.installations, id)
    {
      if id != e.id {
        LatestAppend(h, [e], id);
        assert WasReleased(h + [e], id) ==> WasReleased(h, id);
      }
    }
  }

  lemma RewriteKeepsIds(xs: seq<Installation>, i: nat, x: Installation, id: string)
    requires i < |xs| && x.id == xs[i].id && Knows(xs, id)
    ensures Knows(xs[i := x], id)
  {
    var y :| y in xs && y.id == id;
    var j :| 0 <= j < |xs| && xs[j] == y;
    assert xs[i := x][j] in xs[i := x];
  }

  /** Rewriting one installation in place keeps the others' stories. */
  lemma RewriteOthers(d: Data, h: History, i: nat, x: Installation)
    requires InstallationsMatch(d, h) && i < |d.installations|
    requires x.id == d.installations[i].id && x.licenseId == d.installations[i].licenseId
    ensures var xs := d.installations[i := x];
            && (forall a, b :: 0 <= a < b < |xs| ==> xs[a].id != xs[b].id)
            && (forall y :: y in xs && y != x ==> y in d.installations && y.id != x.id)
            && (forall y :: y in xs ==> Holds(d.licenses, y.licenseId))
            && (forall id :: Knows(d.installations, id) ==> Knows(xs, id))
            && Knows(xs, x.id)
  {
    var xs := d.installations[i := x];
    assert d.installations[i] in d.installations;
    assert xs[i] == x && x in xs;
    forall id | Knows(d.installations, id)
      ensures Knows(xs, id)
    {
      RewriteKeepsIds(d.installations, i, x, id);
    }
  }

  /** Rewriting one installation in place, with one new event about it. */
  lemma RewriteRefines(d: Data, h: History, i: nat, x: Installation, e: Event)
    requires Refines(d, h) && i < |d.installations| && (e.Rotated? || e.Released?)
    requires x.id == d.installations[i].id == e.id && x.licenseId == d.installations[i].licenseId
    requires e.Rotated? ==> x.tokenHash.secret == e.token && x.status == d.installations[i].status
    requires e.Released? ==> x.tokenHash == d.installations[i].tokenHash && x.status.Revoked?
    ensures Refines(d.(installations := d.installations[i := x]), h + [e])
  {
    var d' := d.(installations := d.installations[i := x]);
    RewriteOthers(d, h, i, x);
    LicensesUnaffected(d, d', h, e);
    StoriesCovered(d, d', h, e);
    assert d.installations[i] in d.installations;
    RewrittenMatches(h, d.installations[i], x, e);
    forall y | y in d'.installations
      ensures InstallationMatches(y, h + [e])
    {
      if y != x {
        OthersUnaffected(h, e, y);
      }
    }
  }

  lemma RewrittenMatches(h: History, was: Installation, x: Installation, e: Event)
    requires InstallationMatches(was, h) && (e.Rotated? || e.Released?)
    requires x.id == was.id == e.id && x.licenseId == was.licenseId
    requires e.Rotated? ==> x.tokenHash.secret == e.token && x.status == was.status
    requires e.Released? ==> x.tokenHash == was.tokenHash && x.status.Revoked?
    ensures InstallationMatches(x, h + [e])
  {
    if e.Rotated? {
      LatestMint(h, e, x.id);
    } else {
      LatestAppend(h, [e], x.id);
      assert e in h + [e];
    }
    var token :| Seated(x.id, x.licenseId, token) in h;
    assert Seated(x.id, x.licenseId, token) in h + [e];
    if WasReleased(h, x.id) {
      var lic :| Released(x.id, lic) in h;
      assert Released(x.id, lic) in h + [e];
    }
  }

  /** Rewriting only the time an installation was last seen. */
  lemma TouchRefines(d: Data, h: History, i: nat, x: Installation)
    requires Refines(d, h) && i < |d.installations|
    requires x == d.installations[i].(lastSeen := x.lastSeen)
    ensures Refines(d.(installations := d.installations[i := x]), h)
  {
    var d' := d.(installations := d.installations[i := x]);
    RewriteOthers(d, h, i, x);
    assert d.installations[i] in d.installations;
    assert InstallationMatches(x, h);
  }

  /** Every operation, successful or not, keeps the store true to its history. */
  lemma StepRefines(d: Data, h: History, op: Op, now: nat)
    requires Refines(d, h) && FreshInputs(d, h, op)
    ensures Refines(Next(d, op, now), h + Events(d, op, now))
  {
    var d', es := Next(d, op, now), Events(d, op, now);
    match op
    case Issue(_, _, _, _, _, _, random) =>
      if random {
        IssueRefines(d, h, op, now);
      } else {
        assert h + es == h;
      }
    case Revoke(_) => RevokeRefines(d, h, op, now);
    case Activate(key, installation, _, newId, token, _) =>
      if ActivateChecks(d, op, now).Some? {
        assert h + es == h;
      } else {
        var lic := d.licenses[LicenseByKey(d.licenses, HashKey(key))];
        var i := ReusableAt(d.installations, installation, lic.id);
        assert lic in d.licenses && Holds(d.licenses, lic.id);
        if installation != "" && i < |d.installations| {
          RewriteRefines(d, h, i, d'.installations[i], Rotated(installation, token));
        } else {
          SeatRefines(d, h, d'.installations[|d.installations|]);
        }
      }
    case Validate(id, _, _) =>
      assert h + es == h;
      if d' != d {
        var i := InstallationById(d.installations, id);
        TouchRefines(d, h, i, d'.installations[i]);
      }
    case Deactivate(id, _) =>
      var i := InstallationById(d.installations, id);
      if d' != d && es != [] {
        RewriteRefines(d, h, i, d'.installations[i], es[0]);
      } else {
        assert h + es == h;
        if d' != d {
          TouchRefines(d, h, i, d'.installations[i]);
        }
      }
  }

  /** Validate's verdict, and each of its errors, read off the history. */
  lemma ValidateMeans(d: Data, h: History, id: string, token: string, now: nat)
    requires Refines(d, h)
    ensures var v := ValidateChecks(d, id, token, now);
            && (v.None? <==> Authorised(h, id, token, now))
            && (v == Some(InvalidToken) <==> LatestToken(h, id) != Some(token))
            && (v == Some(LicenseRevoked) <==>
                  LatestToken(h, id) == Some(token) &&
                  (WasReleased(h, id) || exists lic :: SeatedAs(h, id, lic) && RevokedLicense(lic) in h))
            && (v == Some(Expired) <==>
                  LatestToken(h, id) == Some(token) && !WasReleased(h, id) &&
                  exists lic :: SeatedAs(h, id, lic) && RevokedLicense(lic) !in h && ExpiredBy(h, lic, now))
  {
    var i := InstallationById(d.installations, id);
    if i == |d.installations| {
      assert !Knows(d.installations, id);
    } else {
      var x := d.installations[i];
      assert x in d.installations && InstallationMatches(x, h);
      assert Holds(d.licenses, x.licenseId);
      var l := d.licenses[LicenseById(d.licenses, x.licenseId)];
      assert l in d.licenses && l.id == x.licenseId;
      UsableMeans(d, h, l, now);
      assert forall lic :: SeatedAs(h, id, lic) <==> lic == x.licenseId;
    }
  }

  lemma UsableMeans(d: Data, h: History, l: License, now: nat)
    requires LicensesMatch(d, h) && l in d.licenses
    ensures Usable(l, now) == Some(LicenseRevoked) <==> RevokedLicense(l.id) in h
    ensures Usable(l, now).None? <==> RevokedLicense(l.id) !in h && !ExpiredBy(h, l.id, now)
  {
    if l.expires.Some? && now >= l.expires.value {
      assert Issued(l.id, Some(l.expires.value), l.max) in h;
    }
  }

  /** An Activate changes nothing exactly when one of its early checks fails; later failures leave traces. */
  lemma ActivateNoOpExactlyWhen(d: Data, h: History, op: Op, now: nat)
    requires Refines(d, h) && op.Activate? && FreshInputs(d, h, op)
    ensures Next(d, op, now) == d <==> ActivateChecks(d, op, now).Some?
  {
    if ActivateChecks(d, op, now).None? {
      var lic := d.licenses[LicenseByKey(d.licenses, HashKey(op.key))];
      var i := ReusableAt(d.installations, op.installation, lic.id);
      if op.installation != "" && i < |d.installations| {
        var x := d.installations[i];
        assert x in d.installations && InstallationMatches(x, h);
        LatestIsMinted(h, x.id);
        assert Next(d, op, now).installations[i].tokenHash == Digest(op.token);
      } else {
        assert |Next(d, op, now).installations| == |d.installations| + 1;
      }
    }
  }

  lemma {:induction false} LatestIsMinted(h: History, id: string)
    ensures LatestToken(h, id).Some? ==> Minted(h, LatestToken(h, id).value)
  {
    if h != [] {
      var e := h[|h| - 1];
      assert e in h;
      LatestIsMinted(h[..|h| - 1], id);
      if LatestToken(h, id).Some? && !Mints(e, id) {
        var m :| m in h[..|h| - 1] && (m.Seated? || m.Rotated?) && m.token == LatestToken(h, id).value;
        assert m in h;
      }
    }
  }

  // ---------------------------------------------------------------- whole runs

  datatype Timed = Timed(op: Op, now: nat)

  /** A run from (d, h): inputs fresh when drawn, time never going back. */
  ghost predicate RunOk(d: Data, h: History, run: seq<Timed>, from: nat)
    decreases |run|
  {
    run != [] ==>
      && FreshInputs(d, h, run[0].op)
      && from <= run[0].now
      && RunOk(Next(d, run[0].op, run[0].now), h + Events(d, run[0].op, run[0].now), run[1..], run[0].now)
  }

  function RunData(d: Data, run: seq<Timed>): Data
    decreases |run|
  {
    if run == [] then d else RunData(Next(d, run[0].op, run[0].now), run[1..])
  }

  function RunHistory(d: Data, run: seq<Timed>): History
    decreases |run|
  {
    if run == [] then [] else Events(d, run[0].op, run[0].now) + RunHistory(Next(d, run[0].op, run[0].now), run[1..])
  }

  lemma {:induction false} RunRefines(d: Data, h: History, run: seq<Timed>, from: nat)
    requires Refines(d, h) && RunOk(d, h, run, from)
    ensures Refines(RunData(d, run), h + RunHistory(d, run))
    decreases |run|
  {
    if run == [] {
      assert h + [] == h;
    } else {
      var op, now := run[0].op, run[0].now;
      StepRefines(d, h, op, now);
      RunRefines(Next(d, op, now), h + Events(d, op, now), run[1..], now);
      assert h + Events(d, op, now) + RunHistory(Next(d, op, now), run[1..]) == h + RunHistory(d, run);
    }
  }

  /** From an empty store, after any run: Validate accepts exactly what the history authorises. */
  lemma StoreRefinesHistory(run: seq<Timed>, id: string, token: string, now: nat)
    requires RunOk(Data([], []), [], run, 0)
    ensures ValidateChecks(RunData(Data([], []), run), id, token, now).None? <==>
            Authorised(RunHistory(Data([], []), run), id, token, now)
  {
    RunRefines(Data([], []), [], run, 0);
    var h := RunHistory(Data([], []), run);
    assert [] + h == h;
    ValidateMeans(RunData(Data([], []), run), h, id, token, now);
  }

  // ---------------------------------------------------------------- permanence

  /** The installation is dead for every token, or this token has been superseded. */
  ghost predicate Lost(h: History, id: string, token: string, now: nat) {
    WasReleased(h, id) || LicenceGone(h, id, now) || (Minted(h, token) && LatestToken(h, id) != Some(token))
  }

  /** Refusals are losses, except for a token that was never minted and may be one day. */
  lemma LostMeans(h: History, id: string, token: string, now: nat)
    ensures Lost(h, id, token, now) ==> !Authorised(h, id, token, now)
    ensures Minted(h, token) && !Authorised(h, id, token, now) ==> Lost(h, id, token, now)
  {
  }

  lemma ReleasedStays(h: History, es: History, id: string)
    requires WasReleased(h, id)
    ensures WasReleased(h + es, id)
  {
    var lic :| Released(id, lic) in h;
    assert Released(id, lic) in h + es;
  }

  /** No step gives back what is lost. */
  lemma LossStep(d: Data, h: History, op: Op, now: nat, id: string, token: string, before: nat)
    requires FreshInputs(d, h, op) && before <= now && Lost(h, id, token, before)
    ensures Lost(h + Events(d, op, now), id, token, now)
  {
    var es := Events(d, op, now);
    if WasReleased(h, id) {
      ReleasedStays(h, es, id);
    } else if LicenceGone(h, id, before) {
      GoneStays(h, es, id, before, now);
    } else {
      SupersededStep(d, h, op, now, id, token);
    }
  }

  lemma SupersededStep(d: Data, h: History, op: Op, now: nat, id: string, token: string)
    requires FreshInputs(d, h, op) && Minted(h, token) && LatestToken(h, id) != Some(token)
    ensures var h' := h + Events(d, op, now); Minted(h', token) && LatestToken(h', id) != Some(token)
  {
    var es := Events(d, op, now);
    var m :| m in h && (m.Seated? || m.Rotated?) && m.token == token;
    assert m in h + es;
    if exists e :: e in es && Mints(e, id) {
      if op.Revoke? {
        RevokeEventsAre(d.licenses, op.keyOrId);
      }
      assert op.Activate? && |es| == 1 && es[0].token == op.token;
      LatestMint(h, es[0], id);
      assert es == [es[0]];
    } else {
      LatestAppendOp(d, h, op, now, id);
    }
  }

  lemma LatestAppendOp(d: Data, h: History, op: Op, now: nat, id: string)
    requires forall e :: e in Events(d, op, now) ==> !Mints(e, id)
    ensures LatestToken(h + Events(d, op, now), id) == LatestToken(h, id)
  {
    LatestAppend(h, Events(d, op, now), id);
  }

  lemma GoneStays(h: History, es: History, id: string, before: nat, now: nat)
    requires LicenceGone(h, id, before) && before <= now
    ensures LicenceGone(h + es, id, now)
  {
    var lic :| SeatedAs(h, id, lic) && (RevokedLicense(lic) in h || ExpiredBy(h, lic, before));
    var token :| Seated(id, lic, token) in h;
    assert Seated(id, lic, token) in h + es;
    if RevokedLicense(lic) !in h {
      var e: nat, max :| Issued(lic, Some(e), max) in h && e <= before;
      assert Issued(lic, Some(e), max) in h + es;
    }
  }

  /**
   Deactivation, revocation and expiry are permanent for every token, also for one minted later,
   and rotation is for every token it superseded: over every later run they stay refused.
   */
  lemma {:induction false} LossIsPermanent(d: Data, h: History, run: seq<Timed>, id: string, token: string, from: nat, later: nat)
    requires RunOk(d, h, run, from) && Lost(h, id, token, from)
    requires from <= later && (run != [] ==> run[|run| - 1].now <= later)
    ensures Lost(h + RunHistory(d, run), id, token, later)
    ensures !Authorised(h + RunHistory(d, run), id, token, later)
    decreases |run|
  {
    if run == [] {
      LossEndures(h, id, token, from, later);
      assert h + [] == h;
    } else {
      var op, now := run[0].op, run[0].now;
      var d', h' := Next(d, op, now), h + Events(d, op, now);
      LossStep(d, h, op, now, id, token, from);
      TimesAscend(d', h', run[1..], now);
      LossIsPermanent(d', h', run[1..], id, token, now, later);
      Assoc(h, Events(d, op, now), RunHistory(d', run[1..]));
    }
  }

  lemma LossEndures(h: History, id: string, token: string, from: nat, later: nat)
    requires Lost(h, id, token, from) && from <= later
    ensures Lost(h, id, token, later)
  {
    if LicenceGone(h, id, from) {
      GoneStays(h, [], id, from, later);
      assert h + [] == h;
    }
  }

  /**
   The same of the store itself. After any run from an empty store, let an installation be
   deactivated, or its licence revoked or expired, or a token of it superseded; after any further
   run Validate refuses it.
   */
  lemma RefusedForever(before: seq<Timed>, after: seq<Timed>, id: string, token: string, from: nat, later: nat)
    requires RunOk(Data([], []), [], before, 0)
    requires var d, h := RunData(Data([], []), before), RunHistory(Data([], []), before);
             RunOk(d, h, after, from) && Lost(h, id, token, from)
    requires from <= later && (after != [] ==> after[|after| - 1].now <= later)
    ensures ValidateChecks(RunData(RunData(Data([], []), before), after), id, token, later).Some?
  {
    var d, h := RunData(Data([], []), before), RunHistory(Data([], []), before);
    RunRefines(Data([], []), [], before, 0);
    assert [] + h == h;
    RunRefines(d, h, after, from);
    LossIsPermanent(d, h, after, id, token, from, later);
    ValidateMeans(RunData(d, after), h + RunHistory(d, after), id, token, later);
  }

  /** A token that was minted and that Validate refuses is refused ever after. */
  lemma RefusedTokenStaysRefused(before: seq<Timed>, after: seq<Timed>, id: string, token: string, from: nat, later: nat)
    requires RunOk(Data([], []), [], before, 0)
    requires var d, h := RunData(Data([], []), before), RunHistory(Data([], []), before);
             RunOk(d, h, after, from) && Minted(h, token) && ValidateChecks(d, id, token, from).Some?
    requires from <= later && (after != [] ==> after[|after| - 1].now <= later)
    ensures ValidateChecks(RunData(RunData(Data([], []), before), after), id, token, later).Some?
  {
    StoreRefinesHistory(before, id, token, from);
    LostMeans(RunHistory(Data([], []), before), id, token, from);
    RefusedForever(before, after, id, token, from, later);
  }

  // ---------------------------------------------------------------- nothing more is granted

  ghost predicate Dead(h: History, lic: string, now: nat) {
    RevokedLicense(lic) in h || ExpiredBy(h, lic, now)
  }

  /** The event seats an installation under the licence, or gives one seated under it a new token. */
  ghost predicate GrantsUnder(h: History, e: Event, lic: string) {
    (e.Seated? && e.lic == lic) || (e.Rotated? && SeatedAs(h, e.id, lic))
  }

  lemma DeadStays(h: History, es: History, lic: string, before: nat, now: nat)
    requires Dead(h, lic, before) && before <= now
    ensures Dead(h + es, lic, now)
  {
    if RevokedLicense(lic) !in h {
      var e: nat, max :| Issued(lic, Some(e), max) in h && e <= before;
      assert Issued(lic, Some(e), max) in h + es;
    }
  }

  /** A revoked or expired licence grants nothing. */
  lemma DeadGrantsNothing(d: Data, h: History, op: Op, now: nat, lic: string, e: Event)
    requires Refines(d, h) && Dead(h, lic, now) && e in Events(d, op, now)
    ensures !GrantsUnder(h, e, lic)
  {
    if op.Revoke? {
      RevokeEventsAre(d.licenses, op.keyOrId);
    } else if op.Activate? {
      var l := d.licenses[LicenseByKey(d.licenses, HashKey(op.key))];
      assert l in d.licenses;
      UsableMeans(d, h, l, now);
      if e.Rotated? {
        var x := d.installations[ReusableAt(d.installations, op.installation, l.id)];
        assert x in d.installations && InstallationMatches(x, h);
      }
    }
  }

  /** A deactivated installation gets no further token. */
  lemma ReleasedGetsNoToken(d: Data, h: History, op: Op, now: nat, id: string, e: Event)
    requires Refines(d, h) && FreshInputs(d, h, op) && WasReleased(h, id) && e in Events(d, op, now)
    ensures !Mints(e, id)
  {
    assert Knows(d.installations, id);
    if op.Revoke? {
      RevokeEventsAre(d.licenses, op.keyOrId);
    } else if op.Activate? && e.Rotated? {
      var l := d.licenses[LicenseByKey(d.licenses, HashKey(op.key))];
      var x := d.installations[ReusableAt(d.installations, op.installation, l.id)];
      assert x in d.installations && InstallationMatches(x, h);
    }
  }

  lemma SeatsUnderSame(h: History, es: History, id: string, lic: string)
    requires forall e :: e in es ==> !(e.Seated? && e.lic == lic)
    ensures SeatedAs(h + es, id, lic) <==> SeatedAs(h, id, lic)
  {
    if SeatedAs(h, id, lic) {
      var token :| Seated(id, lic, token) in h;
      assert Seated(id, lic, token) in h + es;
    }
  }

  /**
   Over every later run a revoked or expired licence seats nobody and renews no token, and a
   deactivated installation gets none.
   */
  lemma {:induction false} NothingMoreGranted(d: Data, h: History, run: seq<Timed>, from: nat, lic: string, id: string)
    requires Refines(d, h) && RunOk(d, h, run, from)
    ensures Dead(h, lic, from) ==> forall e :: e in RunHistory(d, run) ==> !GrantsUnder(h, e, lic)
    ensures WasReleased(h, id) ==> forall e :: e in RunHistory(d, run) ==> !Mints(e, id)
    decreases |run|
  {
    if run != [] {
      var op, now := run[0].op, run[0].now;
      var es := Events(d, op, now);
      var d', h' := Next(d, op, now), h + es;
      StepRefines(d, h, op, now);
      NothingMoreGranted(d', h', run[1..], now, lic, id);
      if Dead(h, lic, from) {
        DeadRun(d, h, op, now, RunHistory(d', run[1..]), from, lic);
      }
      if WasReleased(h, id) {
        ReleasedStays(h, es, id);
        forall e | e in es
          ensures !Mints(e, id)
        {
          ReleasedGetsNoToken(d, h, op, now, id, e);
        }
      }
    }
  }

  /**
   Of the store itself: once a licence is revoked or expired after a run from an empty store, then
   after any further run nothing has been granted under it and Validate refuses every
   installation that was ever seated under it, whatever the token.
   */
  lemma DeadLicenceIsOver(before: seq<Timed>, after: seq<Timed>, lic: string, id: string, token: string, from: nat, later: nat)
    requires RunOk(Data([], []), [], before, 0)
    requires var d, h := RunData(Data([], []), before), RunHistory(Data([], []), before);
             RunOk(d, h, after, from) && Dead(h, lic, from)
    requires from <= later
    ensures var d, h := RunData(Data([], []), before), RunHistory(Data([], []), before);
            && (forall e :: e in RunHistory(d, after) ==> !GrantsUnder(h, e, lic))
            && (SeatedAs(h + RunHistory(d, after), id, lic) ==>
                  ValidateChecks(RunData(d, after), id, token, later).Some?)
  {
    var d, h := RunData(Data([], []), before), RunHistory(Data([], []), before);
    RunRefines(Data([], []), [], before, 0);
    assert [] + h == h;
    NothingMoreGranted(d, h, after, from, lic, id);
    RunRefines(d, h, after, from);
    DeadStays(h, RunHistory(d, after), lic, from, later);
    ValidateMeans(RunData(d, after), h + RunHistory(d, after), id, token, later);
  }

  lemma DeadRun(d: Data, h: History, op: Op, now: nat, rest: History, from: nat, lic: string)
    requires Refines(d, h) && Dead(h, lic, from) && from <= now
    requires Dead(h + Events(d, op, now), lic, now) ==> forall e :: e in rest ==> !GrantsUnder(h + Events(d, op, now), e, lic)
    ensures forall e :: e in Events(d, op, now) + rest ==> !GrantsUnder(h, e, lic)
  {
    var es := Events(d, op, now);
    DeadStays(h, es, lic, from, now);
    DeadStays(h, [], lic, from, now);
    assert h + [] == h;
    forall e | e in es
      ensures !GrantsUnder(h, e, lic)
    {
      DeadGrantsNothing(d, h, op, now, lic, e);
    }
    forall e | e in rest
      ensures !GrantsUnder(h, e, lic)
    {
      if e.Rotated? {
        SeatsUnderSame(h, es, e.id, lic);
      }
    }
  }

  lemma {:induction false} TimesAscend(d: Data, h: History, run: seq<Timed>, from: nat)
    requires RunOk(d, h, run, from)
    ensures run != [] ==> from <= run[|run| - 1].now
    decreases |run|
  {
    if run != [] {
      TimesAscend(Next(d, run[0].op, run[0].now), h + Events(d, run[0].op, run[0].now), run[1..], run[0].now);
    }
  }

  // ---------------------------------------------------------------- seats

  function SeatedCount(h: History, lic: string): nat {
    if h == [] then 0
    else SeatedCount(h[..|h| - 1], lic) + if h[|h| - 1].Seated? && h[|h| - 1].lic == lic then 1 else 0
  }

  function ReleasedCount(h: History, lic: string): nat {
    if h == [] then 0
    else ReleasedCount(h[..|h| - 1], lic) + if h[|h| - 1].Released? && h[|h| - 1].lic == lic then 1 else 0
  }

  lemma {:induction false} CountUpdate(xs: seq<Installation>, i: nat, x: Installation, lic: string)
    requires i < |xs|
    ensures ActiveCount(xs[i := x], lic) + (if Seat(xs[i], lic) then 1 else 0) ==
            ActiveCount(xs, lic) + (if Seat(x, lic) then 1 else 0)
  {
    var n := |xs| - 1;
    if i < n {
      CountUpdate(xs[..n], i, x, lic);
      assert xs[i := x][..n] == xs[..n][i := x];
    } else {
      assert xs[i := x][..n] == xs[..n];
    }
  }

  lemma {:induction false} CountsAppend(h: History, es: History, lic: string)
    requires |es| <= 1 || forall e :: e in es ==> !e.Seated? && !e.Released?
    ensures SeatedCount(h + es, lic) == SeatedCount(h, lic) + if |es| == 1 && es[0].Seated? && es[0].lic == lic then 1 else 0
    ensures ReleasedCount(h + es, lic) == ReleasedCount(h, lic) + if |es| == 1 && es[0].Released? && es[0].lic == lic then 1 else 0
    decreases |es|
  {
    if es == [] {
      assert h + es == h;
    } else {
      var front := es[..|es| - 1];
      assert forall e :: e in front ==> e in es;
      CountsAppend(h, front, lic);
      assert (h + es)[..|h + es| - 1] == h + front;
      assert es[|es| - 1] in es;
    }
  }

  ghost predicate SeatsBalance(d: Data, h: History) {
    forall lic :: ActiveCount(d.installations, lic) + ReleasedCount(h, lic) == SeatedCount(h, lic)
  }

  ghost predicate WithinLimits(d: Data) {
    forall l :: l in d.licenses ==> ActiveCount(d.installations, l.id) <= l.max
  }

  lemma SeatsStep(d: Data, h: History, op: Op, now: nat)
    requires SeatsBalance(d, h)
    ensures SeatsBalance(Next(d, op, now), h + Events(d, op, now))
  {
    var d', es := Next(d, op, now), Events(d, op, now);
    if op.Revoke? {
      RevokeEventsAre(d.licenses, op.keyOrId);
      assert |es| == 1 ==> es[0] in es;
    }
    forall lic
      ensures ActiveCount(d'.installations, lic) + ReleasedCount(h + es, lic) == SeatedCount(h + es, lic)
    {
      CountsAppend(h, es, lic);
      SeatMoves(d, op, now, lic);
    }
  }

  /** The change of one licence's active count, in terms of the event recorded. */
  lemma SeatMoves(d: Data, op: Op, now: nat, lic: string)
    ensures var es := Events(d, op, now);
            ActiveCount(Next(d, op, now).installations, lic) ==
            ActiveCount(d.installations, lic)
            + (if !op.Revoke? && |es| == 1 && es[0].Seated? && es[0].lic == lic then 1 else 0)
            - (if !op.Revoke? && |es| == 1 && es[0].Released? && es[0].lic == lic then 1 else 0)
  {
    var xs, ys := d.installations, Next(d, op, now).installations;
    if |ys| == |xs| + 1 {
      assert ys[..|xs|] == xs;
    } else if ys != xs {
      var i := if op.Activate? then ReusableAt(xs, op.installation, d.licenses[LicenseByKey(d.licenses, HashKey(op.key))].id)
               else InstallationById(xs, op.id);
      assert ys == xs[i := ys[i]];
      CountUpdate(xs, i, ys[i], lic);
    }
  }

  /** A count grows by a seat just taken, under the limit of the licence found. */
  lemma GrowthIsSeat(d: Data, op: Op, now: nat, lic: string)
    requires ActiveCount(Next(d, op, now).installations, lic) > ActiveCount(d.installations, lic)
    ensures op.Activate? && ActivateChecks(d, op, now).None?
    ensures var l := d.licenses[LicenseByKey(d.licenses, HashKey(op.key))];
            l.id == lic && ActiveCount(d.installations, lic) < l.max
    ensures ActiveCount(Next(d, op, now).installations, lic) == ActiveCount(d.installations, lic) + 1
  {
    SeatMoves(d, op, now, lic);
  }

  /** A seat is only ever added under the limit of its own licence. */
  lemma SeatAddedUnderLimit(d: Data, h: History, op: Op, now: nat, l: License)
    requires LicensesMatch(d, h) && l in d.licenses && !op.Issue?
    requires ActiveCount(Next(d, op, now).installations, l.id) > ActiveCount(d.installations, l.id)
    ensures ActiveCount(Next(d, op, now).installations, l.id) <= l.max
  {
    GrowthIsSeat(d, op, now, l.id);
    var j := LicenseByKey(d.licenses, HashKey(op.key));
    var i :| 0 <= i < |d.licenses| && d.licenses[i] == l;
    assert d.licenses[j].id == l.id;
    assert i == j;
  }

  lemma LimitsStep(d: Data, h: History, op: Op, now: nat)
    requires Refines(d, h) && WithinLimits(d) && FreshInputs(d, h, op)
    ensures WithinLimits(Next(d, op, now))
  {
    var d' := Next(d, op, now);
    if op.Issue? {
      NoSeatsFor(d, h, op.newId);
    } else {
      forall l' | l' in d'.licenses
        ensures ActiveCount(d'.installations, l'.id) <= l'.max
      {
        var i :| 0 <= i < |d'.licenses| && d'.licenses[i] == l';
        var l := d.licenses[i];
        assert l in d.licenses && l.id == l'.id && l.max == l'.max;
        if ActiveCount(d'.installations, l.id) > ActiveCount(d.installations, l.id) {
          SeatAddedUnderLimit(d, h, op, now, l);
        }
      }
    }
  }

  /** A licence id nobody holds has no installations. */
  lemma NoSeatsFor(d: Data, h: History, lic: string)
    requires InstallationsMatch(d, h) && forall l :: l in d.licenses ==> l.id != lic
    ensures ActiveCount(d.installations, lic) == 0
  {
    assert !Holds(d.licenses, lic);
    NoSeats(d.installations, lic);
  }

  lemma {:induction false} NoSeats(xs: seq<Installation>, lic: string)
    requires forall x :: x in xs ==> x.licenseId != lic
    ensures ActiveCount(xs, lic) == 0
  {
    if xs != [] {
      assert xs[|xs| - 1] in xs;
      NoSeats(xs[..|xs| - 1], lic);
    }
  }

  lemma {:induction false} SeatsRun(d: Data, h: History, run: seq<Timed>, from: nat)
    requires Refines(d, h) && SeatsBalance(d, h) && WithinLimits(d) && RunOk(d, h, run, from)
    ensures SeatsBalance(RunData(d, run), h + RunHistory(d, run)) && WithinLimits(RunData(d, run))
    decreases |run|
  {
    if run == [] {
      assert h + [] == h;
    } else {
      var op, now := run[0].op, run[0].now;
      var d', h' := Next(d, op, now), h + Events(d, op, now);
      StepRefines(d, h, op, now);
      SeatsStep(d, h, op, now);
      LimitsStep(d, h, op, now);
      SeatsRun(d', h', run[1..], now);
      assert h' + RunHistory(d', run[1..]) == h + RunHistory(d, run);
    }
  }

  /** From an empty store: no licence ever exceeds its seats, and seats are neither lost nor invented. */
  lemma SeatsNeverOversold(run: seq<Timed>, lic: License)
    requires RunOk(Data([], []), [], run, 0)
    ensures var d, h := RunData(Data([], []), run), RunHistory(Data([], []), run);
            && (lic in d.licenses ==> ActiveCount(d.installations, lic.id) <= lic.max)
            && ActiveCount(d.installations, lic.id) == SeatedCount(h, lic.id) - ReleasedCount(h, lic.id)
  {
    var h := RunHistory(Data([], []), run);
    SeatsRun(Data([], []), [], run, 0);
    assert [] + h == h;
  }

  // ---------------------------------------------------------------- a failed Activate that is no no-op

  lemma SeatTaken(l: License, op: Op)
    requires op.Activate? && op.random && op.installation == "" && l.keyHash == HashKey(op.key)
    requires l.status.Active? && l.expires.None? && l.max >= 1
    ensures ActivateChecks(Data([l], []), op, 0) == None
    ensures Next(Data([l], []), op, 0).installations == [Installation(op.newId, l.id, Digest(op.token), 0, Active)]
    ensures LicenseByKey([l], HashKey(op.key)) == 0
  {
    assert ActiveCount([], l.id) == 0;
  }

  lemma OneSeat(x: Installation)
    requires x.status.Active?
    ensures ActiveCount([x], x.licenseId) == 1
  {
    assert [x][..0] == [];
  }

  /** Issuing without proxy credentials and activating without a fallback: an error, and a seat taken. */
  method NoProxyTakesSeat(key: string, licenceId: string, id: string, token: string) returns (r: Result, seats: nat)
    ensures r == Err(NoProxy) && seats == 1
  {
    var store := new Store();
    var issued := store.IssueLicense(1, None, "", "", licenceId, key, true, true);
    ghost var l := License(licenceId, HashKey(key), Active, None, 1, "", "");
    assert store.licenses == [l] && store.installations == [];
    var op := Activate(key, "", Proxy("", ""), id, token, true);
    SeatTaken(l, op);
    r := store.ActivateInstallation(op, 0, true);
    OneSeat(Installation(id, licenceId, Digest(token), 0, Active));
    assert store.View().installations == [Installation(id, licenceId, Digest(token), 0, Active)];
    seats := store.CountActive(licenceId);
  }
}
