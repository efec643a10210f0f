/** One-time pairing codes, the registered app keys (auth/pairing.py), and the
    credential check that consults them (auth/access.py).

    Reading a public key is the parameter `key`: its identifier, or nothing if
    it is not usable.  Checking a token's signature is the parameter `claims`. */
module Pairing {
  import opened Wrappers

  type KeyId = string
  type Code = string

  const MAX_ATTEMPTS := 3
  const ADMIN := "admin"
  const DEFAULT_SCOPES := {"read", "control"}

  datatype Policy = Policy(ttl: real, singleOwner: bool, preserveAdmin: bool)

  datatype CodeEntry = CodeEntry(expires: real, attempts: nat)

  datatype App = App(scopes: set<string>, revoked: bool, replacedBy: Option<KeyId>)

  datatype Store = Store(codes: map<Code, CodeEntry>, apps: map<KeyId, App>)

  datatype Error = CodeInvalid | CodeLocked | InvalidKey

  datatype Pairing = Pairing(key: KeyId, replaced: set<KeyId>)

  // ---------------------------------------------------------------------
  // Operations
  // ---------------------------------------------------------------------

  function Clean(codes: map<Code, CodeEntry>, now: real): map<Code, CodeEntry> {
    map c | c in codes && codes[c].expires >= now :: codes[c]
  }

  predicate Displaced(p: Policy, k: KeyId, app: App, key: KeyId) {
    p.singleOwner && k != key && !app.revoked && !(p.preserveAdmin && ADMIN in app.scopes)
  }

  function Displace(p: Policy, apps: map<KeyId, App>, key: KeyId): map<KeyId, App> {
    map k | k in apps ::
      if Displaced(p, k, apps[k], key) then apps[k].(revoked := true, replacedBy := Some(key)) else apps[k]
  }

  function Generate(p: Policy, s: Store, code: Code, now: real): Store {
    s.(codes := Clean(s.codes, now)[code := CodeEntry(now + p.ttl, 0)])
  }

  function Register(p: Policy, s: Store, code: Code, key: Option<KeyId>, now: real): (Store, Result<Pairing, Error>) {
    var codes := Clean(s.codes, now);
    if code !in codes then (s.(codes := codes), Err(CodeInvalid))
    else if codes[code].attempts >= MAX_ATTEMPTS then (s.(codes := codes - {code}), Err(CodeLocked))
    else
      var e := codes[code].(attempts := codes[code].attempts + 1);
      if key.None? then (s.(codes := codes[code := e]), Err(InvalidKey))
      else
        var k := key.value;
        (Store(codes - {code}, Displace(p, s.apps, k)[k := App(DEFAULT_SCOPES, false, None)]),
         Ok(Pairing(k, set x | x in s.apps && Displaced(p, x, s.apps[x], k))))
  }

  function Revoke(s: Store, key: KeyId): (Store, bool) {
    if key !in s.apps then (s, false)
    else (s.(apps := s.apps[key := s.apps[key].(revoked := true)]), true)
  }

  datatype Op =
    | DoGenerate(code: Code, now: real)
    | DoRegister(code: Code, key: Option<KeyId>, now: real)
    | DoRevoke(revoked: KeyId)

  function Step(p: Policy, s: Store, op: Op): Store {
    match op
    case DoGenerate(code, now) => Generate(p, s, code, now)
    case DoRegister(code, key, now) => Register(p, s, code, key, now).0
    case DoRevoke(key) => Revoke(s, key).0
  }

  function Run(p: Policy, s: Store, ops: seq<Op>): Store
    decreases |ops|
  {
    if ops == [] then s else Run(p, Step(p, s, ops[0]), ops[1..])
  }

  predicate Pairs(p: Policy, s: Store, op: Op, key: KeyId) {
    op.DoRegister? && op.key == Some(key) && Register(p, s, op.code, op.key, op.now).1.Ok?
  }

  /** Some operation of the run registers this key. */
  predicate PairsWithin(p: Policy, s: Store, ops: seq<Op>, key: KeyId)
    decreases |ops|
  {
    ops != [] && (Pairs(p, s, ops[0], key) || PairsWithin(p, Step(p, s, ops[0]), ops[1..], key))
  }

  // ---------------------------------------------------------------------
  // A single owner
  // ---------------------------------------------------------------------

  predicate Active(apps: map<KeyId, App>, k: KeyId) { k in apps && !apps[k].revoked }

  predicate ActiveUser(apps: map<KeyId, App>, k: KeyId) { Active(apps, k) && ADMIN !in apps[k].scopes }

  ghost predicate AtMostOneUser(apps: map<KeyId, App>) {
    forall a, b :: ActiveUser(apps, a) && ActiveUser(apps, b) ==> a == b
  }

  /** A successful registration makes its key active, without admin scope, and
      under the single-owner policy the only active one among those it does not
      have to spare; admin keys are left as they were, and nothing else changes
      but the records of the keys it reports as replaced. */
  lemma RegistrationLeavesOneUser(p: Policy, s: Store, code: Code, key: KeyId, now: real)
    requires Register(p, s, code, Some(key), now).1.Ok?
    ensures var (s1, r) := Register(p, s, code, Some(key), now);
      && ActiveUser(s1.apps, key) && code !in s1.codes
      && (p.singleOwner && p.preserveAdmin ==>
            forall k :: ActiveUser(s1.apps, k) <==> k == key)
      && (p.singleOwner && !p.preserveAdmin ==> forall k :: Active(s1.apps, k) <==> k == key)
      && (p.singleOwner && p.preserveAdmin ==>
            forall k :: k != key && k in s.apps && ADMIN in s.apps[k].scopes ==> s1.apps[k] == s.apps[k])
      && s1.apps.Keys == s.apps.Keys + {key} && s1.apps[key].scopes == {"read", "control"}
      && (!p.singleOwner ==> r.value.replaced == {})
      && (forall k :: k in s.apps && k != key ==>
            if k in r.value.replaced then
              !s.apps[k].revoked && s1.apps[k] == App(s.apps[k].scopes, true, Some(key))
            else s1.apps[k] == s.apps[k])
  {
  }

  lemma FailureLeavesApps(p: Policy, s: Store, op: Op)
    requires op.DoRegister? && Register(p, s, op.code, op.key, op.now).1.Err?
    ensures Step(p, s, op).apps == s.apps
  {
  }

  /** From the first successful registration on, and in whatever order codes are
      made, keys are registered and revoked, there is at most one active user. */
  lemma {:induction false} AtMostOneUserFromThenOn(p: Policy, s: Store, ops: seq<Op>)
    requires p.singleOwner && p.preserveAdmin
    requires AtMostOneUser(s.apps) || exists key :: ops != [] && Pairs(p, s, ops[0], key)
    ensures AtMostOneUser(Run(p, s, ops).apps)
    decreases |ops|
  {
    if ops != [] {
      var op := ops[0];
      var s1 := Step(p, s, op);
      if op.DoRegister? && Register(p, s, op.code, op.key, op.now).1.Ok? {
        RegistrationLeavesOneUser(p, s, op.code, op.key.value, op.now);
      } else {
        if op.DoRegister? { FailureLeavesApps(p, s, op); }
        assert forall k :: ActiveUser(s1.apps, k) ==> ActiveUser(s.apps, k);
      }
      AtMostOneUserFromThenOn(p, s1, ops[1..]);
    }
  }

  // ---------------------------------------------------------------------
  // Codes
  // ---------------------------------------------------------------------

  predicate Tries(p: Policy, s: Store, op: Op, code: Code) {
    op.DoRegister? && op.code == code && !(Register(p, s, code, op.key, op.now).1 in {Err(CodeInvalid), Err(CodeLocked)})
  }

  function CountTries(p: Policy, s: Store, ops: seq<Op>, code: Code): nat
    decreases |ops|
  {
    if ops == [] then 0
    else (if Tries(p, s, ops[0], code) then 1 else 0) + CountTries(p, Step(p, s, ops[0]), ops[1..], code)
  }

  function CountPairings(p: Policy, s: Store, ops: seq<Op>, code: Code): nat
    decreases |ops|
  {
    if ops == [] then 0
    else
      var op := ops[0];
      (if op.DoRegister? && op.code == code && Register(p, s, code, op.key, op.now).1.Ok? then 1 else 0)
      + CountPairings(p, Step(p, s, op), ops[1..], code)
  }

  function TriesLeft(s: Store, code: Code): nat {
    if code in s.codes && s.codes[code].attempts < MAX_ATTEMPTS then MAX_ATTEMPTS - s.codes[code].attempts else 0
  }

  /** Until it is generated again, a code lets at most three keys be looked at,
      and pairs at most one. */
  lemma {:induction false} CodeIsLimited(p: Policy, s: Store, ops: seq<Op>, code: Code)
    requires forall op :: op in ops && op.DoGenerate? ==> op.code != code
    ensures CountTries(p, s, ops, code) <= TriesLeft(s, code) <= 3
    ensures CountPairings(p, s, ops, code) <= (if code in s.codes then 1 else 0)
    decreases |ops|
  {
    if ops != [] {
      assert ops[0] in ops;
      CodeIsLimited(p, Step(p, s, ops[0]), ops[1..], code);
    }
  }

  /** A code is worthless once its time is up. */
  lemma {:induction false} CodeExpires(p: Policy, s: Store, ops: seq<Op>, code: Code)
    requires forall op :: op in ops && op.DoGenerate? ==> op.code != code
    requires forall op :: op in ops && op.DoRegister? && op.code == code && code in s.codes ==>
      op.now > s.codes[code].expires
    ensures CountTries(p, s, ops, code) == 0 && CountPairings(p, s, ops, code) == 0
    decreases |ops|
  {
    if ops != [] {
      assert ops[0] in ops;
      CodeExpires(p, Step(p, s, ops[0]), ops[1..], code);
    }
  }

  /** A code pairs a usable key as long as it has attempts left and its time is
      not up, whatever is done meanwhile with other codes and with the keys. */
  lemma {:induction false} CodeStaysGood(p: Policy, s: Store, code: Code, ops: seq<Op>, key: Option<KeyId>, now: real)
    requires code in s.codes
    requires forall op :: op in ops && !op.DoRevoke? ==> op.code != code && op.now <= s.codes[code].expires
    ensures Register(p, Run(p, s, ops), code, key, now).1.Ok? <==>
      key.Some? && now <= s.codes[code].expires && s.codes[code].attempts < 3
    decreases |ops|
  {
    if ops != [] {
      assert ops[0] in ops;
      CodeStaysGood(p, Step(p, s, ops[0]), code, ops[1..], key, now);
    }
  }

  lemma FreshCodePairs(p: Policy, s: Store, code: Code, made: real, ops: seq<Op>, key: Option<KeyId>, now: real)
    requires forall op :: op in ops && !op.DoRevoke? ==> op.code != code && op.now <= made + p.ttl
    ensures Register(p, Run(p, Generate(p, s, code, made), ops), code, key, now).1.Ok? <==>
      key.Some? && now <= made + p.ttl
  {
    CodeStaysGood(p, Generate(p, s, code, made), code, ops, key, now);
  }

  /** What a registration answers, and what a failed one costs: one of the three
      attempts if the code was good and the key was not. */
  lemma RegisterAnswers(p: Policy, s: Store, code: Code, key: Option<KeyId>, now: real)
    ensures var (s1, r) := Register(p, s, code, key, now);
      var live := code in s.codes && now <= s.codes[code].expires;
      && (r == Err(CodeInvalid) <==> !live)
      && (r == Err(CodeLocked) <==> live && s.codes[code].attempts >= 3)
      && (r == Err(InvalidKey) <==> live && s.codes[code].attempts < 3 && key.None?)
      && (r.Ok? ==> r.value.key == key.value)
      && (r == Err(InvalidKey) ==> TriesLeft(s1, code) == TriesLeft(s, code) - 1)
      && (r.Err? ==> s1.apps == s.apps) && (r == Err(CodeLocked) ==> code !in s1.codes)
  {
  }

  /** A revocation reaches the one key it names, if there is one, and no code. */
  lemma RevocationIsPrecise(s: Store, key: KeyId)
    ensures var (s1, known) := Revoke(s, key);
      && (known <==> key in s.apps) && s1.codes == s.codes && s1.apps.Keys == s.apps.Keys
      && (known ==> s1.apps[key].revoked && s1.apps[key].scopes == s.apps[key].scopes)
      && (forall k :: k in s.apps && k != key ==> s1.apps[k] == s.apps[k])
  {
  }

  // ---------------------------------------------------------------------
  // Credentials
  // ---------------------------------------------------------------------

  /** A token's verified content. */
  datatype Claims = Claims(subject: Option<KeyId>, scopes: set<string>)

  datatype Access = Access(hasKey: bool, serviceToken: string, serviceScopes: set<string>)

  datatype AuthError = Unauthorized | InvalidToken | Forbidden

  function Verify(a: Access, apps: map<KeyId, App>, token: string, claims: Option<Claims>, scope: Option<string>)
    : Result<Claims, AuthError>
  {
    var found :=
      if a.serviceToken != "" && token == a.serviceToken then Ok(Claims(Some("local-service"), a.serviceScopes))
      else if !a.hasKey then Err(Unauthorized)
      else if claims.None? then Err(InvalidToken)
      else
        var c := claims.value;
        if c.subject.None? || !Active(apps, c.subject.value) then Err(Unauthorized)
        else Ok(c.(scopes := c.scopes * apps[c.subject.value].scopes));
    if found.Ok? && scope.Some? && scope.value !in found.value.scopes then Err(Forbidden) else found
  }

  /** An app is let through exactly when its token verifies for an active key
      and both the token and the key's current record hold the scope asked for;
      what it gets never exceeds either. */
  lemma AppAcceptedIff(a: Access, apps: map<KeyId, App>, token: string, claims: Option<Claims>, scope: string)
    requires a.serviceToken == "" || token != a.serviceToken
    ensures Verify(a, apps, token, claims, Some(scope)).Ok? <==>
      && a.hasKey && claims.Some? && claims.value.subject.Some?
      && Active(apps, claims.value.subject.value)
      && scope in claims.value.scopes && scope in apps[claims.value.subject.value].scopes
    ensures Verify(a, apps, token, claims, Some(scope)).Ok? ==>
      var c := Verify(a, apps, token, claims, Some(scope)).value;
      && c.subject == claims.value.subject
      && c.scopes == claims.value.scopes * apps[c.subject.value].scopes
    ensures Verify(a, apps, token, claims, Some(scope)) == Err(Forbidden) <==>
      && a.hasKey && claims.Some? && claims.value.subject.Some?
      && Active(apps, claims.value.subject.value)
      && !(scope in claims.value.scopes && scope in apps[claims.value.subject.value].scopes)
    ensures Verify(a, apps, token, claims, Some(scope)) == Err(InvalidToken) <==> a.hasKey && claims.None?
  {
  }

  /** The service token is good for the service's scopes, no more and no less,
      whatever becomes of the apps; an empty one is no token. */
  lemma ServiceAcceptedIff(a: Access, apps: map<KeyId, App>, token: string, claims: Option<Claims>, scope: Option<string>)
    requires token == a.serviceToken
    ensures token != "" ==>
      (Verify(a, apps, token, claims, scope) ==
         if scope.None? || scope.value in a.serviceScopes then Ok(Claims(Some("local-service"), a.serviceScopes))
         else Err(Forbidden))
    ensures token == "" && (!a.hasKey || claims.None?) ==> Verify(a, apps, token, claims, scope).Err?
  {
  }

  lemma RevokedStep(p: Policy, s: Store, op: Op, key: KeyId)
    requires key in s.apps && s.apps[key].revoked && !Pairs(p, s, op, key)
    ensures key in Step(p, s, op).apps && Step(p, s, op).apps[key].revoked
  {
  }

  lemma {:induction false} RevokedUntilPaired(p: Policy, s: Store, ops: seq<Op>, key: KeyId)
    requires key in s.apps && s.apps[key].revoked && !PairsWithin(p, s, ops, key)
    ensures key in Run(p, s, ops).apps && Run(p, s, ops).apps[key].revoked
    decreases |ops|
  {
    if ops != [] {
      RevokedStep(p, s, ops[0], key);
      RevokedUntilPaired(p, Step(p, s, ops[0]), ops[1..], key);
    }
  }

  /** Once a key is revoked, by hand or by the pairing that displaced it, no token
      of that key verifies for anything, until the key itself is paired again. */
  lemma TokensDieWithTheirKey(
    p: Policy, s: Store, op: Op, ops: seq<Op>, key: KeyId, a: Access, token: string, claims: Claims, scope: Option<string>)
    requires Active(s.apps, key)
    requires op == DoRevoke(key) ||
      (op.DoRegister? && Register(p, s, op.code, op.key, op.now).1.Ok? &&
       key in Register(p, s, op.code, op.key, op.now).1.value.replaced)
    requires !PairsWithin(p, Step(p, s, op), ops, key)
    requires claims.subject == Some(key) && (a.serviceToken == "" || token != a.serviceToken)
    ensures Verify(a, Run(p, Step(p, s, op), ops).apps, token, Some(claims), scope).Err?
  {
    if op.DoRegister? {
      RegistrationLeavesOneUser(p, s, op.code, op.key.value, op.now);
    }
    RevokedUntilPaired(p, Step(p, s, op), ops, key);
  }

  // ---------------------------------------------------------------------
  // The object
  // ---------------------------------------------------------------------

  class PairingManager {
    const policy: Policy
    var codes: map<Code, CodeEntry>
    var apps: map<KeyId, App>

    ghost function View(): Store
      reads this
    {
      Store(codes, apps)
    }

    constructor (policy: Policy, apps: map<KeyId, App>)
      ensures this.policy == policy && View() == Store(map[], apps)
    {
      this.policy := policy;
      codes, this.apps := map[], apps;
    }

    method CleanCodes(now: real)
      modifies this`codes
      ensures codes == Clean(old(codes), now)
    {
      var todo := codes.Keys;
      while todo != {}
        invariant todo <= codes.Keys <= old(codes).Keys
        invariant forall c :: c in codes ==> codes[c] == old(codes)[c] && (c in todo || codes[c].expires >= now)
        invariant forall c :: c in old(codes) && c !in codes ==> old(codes)[c].expires < now
        decreases todo
      {
        var c :| c in todo;
        if codes[c].expires < now {
          codes := codes - {c};
        }
        todo := todo - {c};
      }
    }

    method GenerateCode(code: Code, now: real)
      modifies this
      ensures View() == Generate(policy, old(View()), code, now)
    {
      CleanCodes(now);
      codes := codes[code := CodeEntry(now + policy.ttl, 0)];
    }

    method RegisterKey(code: Code, key: Option<KeyId>, now: real) returns (r: Result<Pairing, Error>)
      modifies this
      ensures (View(), r) == Register(policy, old(View()), code, key, now)
    {
      CleanCodes(now);
      if code !in codes {
        return Err(CodeInvalid);
      }
      if codes[code].attempts >= MAX_ATTEMPTS {
        codes := codes - {code};
        return Err(CodeLocked);
      }
      var entry := codes[code].(attempts := codes[code].attempts + 1);
      ghost var cleaned := codes;
      codes := codes[code := entry];
      if key.None? {
        return Err(InvalidKey);
      }
      var replaced := DisplaceOthers(key.value);
      apps := apps[key.value := App(DEFAULT_SCOPES, false, None)];
      codes := codes - {code};
      assert codes == cleaned - {code};
      r := Ok(Pairing(key.value, replaced));
    }

    /** The loop over the other apps. */
    method DisplaceOthers(key: KeyId) returns (replaced: set<KeyId>)
      modifies this`apps
      ensures apps == Displace(policy, old(apps), key)
      ensures replaced == set x | x in old(apps) && Displaced(policy, x, old(apps)[x], key)
    {
      replaced := {};
      if policy.singleOwner {
        var todo := apps.Keys;
        while todo != {}
          invariant todo <= apps.Keys == old(apps).Keys
          invariant forall k :: k in todo ==> apps[k] == old(apps)[k]
          invariant forall k :: k in apps && k !in todo ==> apps[k] == Displace(policy, old(apps), key)[k]
          invariant replaced == set x | x in old(apps) && x !in todo && Displaced(policy, x, old(apps)[x], key)
          decreases todo
        {
          var k :| k in todo;
          if k != key && !apps[k].revoked && !(policy.preserveAdmin && ADMIN in apps[k].scopes) {
            apps := apps[k := apps[k].(revoked := true, replacedBy := Some(key))];
            replaced := replaced + {k};
          }
          todo := todo - {k};
        }
      }
      assert apps == Displace(policy, old(apps), key);
    }

    method RevokeKey(key: KeyId) returns (known: bool)
      modifies this
      ensures (View(), known) == Revoke(old(View()), key)
    {
      if key !in apps {
        return false;
      }
      apps := apps[key := apps[key].(revoked := true)];
      known := true;
    }
  }
}
