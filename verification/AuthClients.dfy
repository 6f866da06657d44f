// The credential store: a container with several unique indexes, filled once from the configuration,
// and the lookups of the three kinds of client (SOCKS5: pair, SOCKS4: user, HTTP: Base64 string).
module AuthClients {
  import opened Bytes
  import Base64

  datatype AuthUser = AuthUser(id: nat, user: bytes, pwd: bytes, base64: bytes)

  datatype ClientInfo = ClientInfo(user: bytes, pwd: bytes, base64AuthString: bytes)

  const COLON: byte := 58

  function Joined(user: bytes, pwd: bytes): bytes {
    user + [COLON] + pwd
  }

  // What an HTTP client sends for (user, pwd): RFC 7617 section 2.
  function AuthString(user: bytes, pwd: bytes): bytes {
    Base64.Encode(Joined(user, pwd))
  }

  // What the configuration loader lets through.
  predicate Loaded(config: seq<ClientInfo>) {
    forall i :: 0 <= i < |config| ==>
                  config[i].user != [] && config[i].base64AuthString == AuthString(config[i].user, config[i].pwd)
  }

  // ---- The container ----

  // Some unique index already holds an equal key. (The index over whole records adds nothing: it
  // compares ids first.)
  predicate Conflict(a: AuthUser, b: AuthUser) {
    a.id == b.id || (a.user == b.user && a.pwd == b.pwd) || a.base64 == b.base64
  }

  function EmplaceBack(s: seq<AuthUser>, r: AuthUser): seq<AuthUser> {
    if exists i :: 0 <= i < |s| && Conflict(s[i], r) then s else s + [r]
  }

  function RecordOf(id: nat, c: ClientInfo): AuthUser {
    AuthUser(id, c.user, c.pwd, c.base64AuthString)
  }

  // The container after the entries of `config` were offered in order; every offer uses up an id.
  function LoadOnto(s: seq<AuthUser>, lastId: nat, config: seq<ClientInfo>): seq<AuthUser> {
    if config == [] then s
    else
      var n := |config|;
      EmplaceBack(LoadOnto(s, lastId, config[..n - 1]), RecordOf(lastId + n, config[n - 1]))
  }

  function Load(config: seq<ClientInfo>): seq<AuthUser> {
    LoadOnto([], 0, config)
  }

  // ---- Lookups ----

  function FindPair(s: seq<AuthUser>, user: bytes, pwd: bytes): (r: Option<AuthUser>)
    ensures r.Some? ==> r.value in s && r.value.user == user && r.value.pwd == pwd
    ensures r.None? ==> forall a :: a in s ==> !(a.user == user && a.pwd == pwd)
  {
    if s == [] then None
    else if s[0].user == user && s[0].pwd == pwd then Some(s[0])
    else FindPair(s[1..], user, pwd)
  }

  function FindBase64(s: seq<AuthUser>, text: bytes): (r: Option<AuthUser>)
    ensures r.Some? ==> r.value in s && r.value.base64 == text
    ensures r.None? ==> forall a :: a in s ==> a.base64 != text
  {
    if s == [] then None
    else if s[0].base64 == text then Some(s[0])
    else FindBase64(s[1..], text)
  }

  function FindId(s: seq<AuthUser>, id: nat): (r: Option<AuthUser>)
    ensures r.Some? ==> r.value in s && r.value.id == id
    ensures r.None? ==> forall a :: a in s ==> a.id != id
  {
    if s == [] then None
    else if s[0].id == id then Some(s[0])
    else FindId(s[1..], id)
  }

  // The user index is not unique: which of several records with this user it returns is unspecified.
  predicate IsFoundUser(s: seq<AuthUser>, user: bytes, r: Option<AuthUser>) {
    match r
    case Some(a) => a in s && a.user == user
    case None => forall a :: a in s ==> a.user != user
  }

  class AuthClientManager {
    var lastId: nat
    var authInfo: seq<AuthUser>

    constructor (config: seq<ClientInfo>)
      ensures lastId == |config| && authInfo == Load(config)
    {
      lastId := 0;
      authInfo := [];
      new;
      InitUserInfo(config);
    }

    method InitUserInfo(config: seq<ClientInfo>)
      modifies this
      ensures lastId == old(lastId) + |config|
      ensures authInfo == LoadOnto(old(authInfo), old(lastId), config)
    {
      var i := 0;
      while i < |config|
        invariant 0 <= i <= |config|
        invariant lastId == old(lastId) + i
        invariant authInfo == LoadOnto(old(authInfo), old(lastId), config[..i])
      {
        lastId := lastId + 1;
        authInfo := EmplaceBack(authInfo, RecordOf(lastId, config[i]));
        assert config[..i + 1][..i] == config[..i];
        i := i + 1;
      }
      assert config[..i] == config;
    }

    predicate NeedAuth()
      reads this
    {
      authInfo != []
    }

    method HaveAuthUser(user: bytes) returns (found: bool)
      ensures found <==> exists a :: a in authInfo && a.user == user
    {
      var r := CheckAuthUserOnly(user);
      found := r.Some?;
    }

    method CheckAuthUserOnly(user: bytes) returns (r: Option<AuthUser>)
      ensures IsFoundUser(authInfo, user, r)
    {
      if i :| 0 <= i < |authInfo| && authInfo[i].user == user {
        r := Some(authInfo[i]);
      } else {
        r := None;
      }
    }

    function CheckAuth(user: bytes, pwd: bytes): (r: Option<AuthUser>)
      reads this
      ensures r.Some? ==> r.value in authInfo && r.value.user == user && r.value.pwd == pwd
      ensures r.None? ==> forall a :: a in authInfo ==> a.user != user || a.pwd != pwd
    {
      FindPair(authInfo, user, pwd)
    }

    function CheckAuthBase64AuthString(text: bytes): (r: Option<AuthUser>)
      reads this
      ensures r.Some? ==> r.value in authInfo && r.value.base64 == text
      ensures r.None? ==> forall a :: a in authInfo ==> a.base64 != text
    {
      FindBase64(authInfo, text)
    }

    function GetById(id: nat): (r: Option<AuthUser>)
      reads this
      ensures r.Some? ==> r.value in authInfo && r.value.id == id
      ensures r.None? ==> forall a :: a in authInfo ==> a.id != id
    {
      FindId(authInfo, id)
    }
  }

  // ---- What the loaded store holds ----

  predicate SameLogin(c: ClientInfo, d: ClientInfo) {
    c.user == d.user && c.pwd == d.pwd
  }

  // Entry `i` is the first one whose user and password join to its string.
  predicate FirstJoined(config: seq<ClientInfo>, i: nat)
    requires i < |config|
  {
    forall j :: 0 <= j < i ==>
                  Joined(config[j].user, config[j].pwd) != Joined(config[i].user, config[i].pwd)
  }

  predicate Increasing(s: seq<AuthUser>) {
    forall i, j :: 0 <= i < j < |s| ==> s[i].id < s[j].id
  }

  predicate IsRecord(config: seq<ClientInfo>, a: AuthUser) {
    1 <= a.id <= |config| && a == RecordOf(a.id, config[a.id - 1])
  }

  // Entry i is stored, under id i + 1.
  predicate Holds(s: seq<AuthUser>, config: seq<ClientInfo>, i: nat)
    requires i < |config|
  {
    RecordOf(i + 1, config[i]) in s
  }

  // The stored records are those of the entries that join to a new string, in the order of the
  // configuration.
  ghost predicate HoldsFirsts(s: seq<AuthUser>, config: seq<ClientInfo>) {
    && Increasing(s)
    && (forall a :: a in s ==> IsRecord(config, a))
    && (forall i :: 0 <= i < |config| ==> (Holds(s, config, i) <==> FirstJoined(config, i)))
  }

  lemma AuthStringInjective(u: bytes, p: bytes, v: bytes, q: bytes)
    ensures AuthString(u, p) == AuthString(v, q) <==> Joined(u, p) == Joined(v, q)
  {
    Base64.EncodeInjective(Joined(u, p), Joined(v, q));
  }

  // An offered record is refused iff an earlier entry joins to the same string.
  lemma RefusedIff(s: seq<AuthUser>, front: seq<ClientInfo>, c: ClientInfo)
    requires Loaded(front + [c]) && HoldsFirsts(s, front)
    ensures (exists i :: 0 <= i < |s| && Conflict(s[i], RecordOf(|front| + 1, c)))
       <==> !FirstJoined(front + [c], |front|)
  {
    var config := front + [c];
    var r := RecordOf(|front| + 1, c);
    assert forall j :: 0 <= j < |front| ==> config[j] == front[j];
    if i :| 0 <= i < |s| && Conflict(s[i], r) {
      var a := s[i];
      assert a in s && IsRecord(front, a) && Holds(s, front, a.id - 1);
      var d := config[a.id - 1];
      AuthStringInjective(d.user, d.pwd, c.user, c.pwd);
    }
    if !FirstJoined(config, |front|) {
      var j := FirstIndex(config, |front|);
      var d := front[j];
      assert forall k :: 0 <= k < j ==> config[k] == front[k];
      assert FirstJoined(front, j) && Holds(s, front, j);
      var a := RecordOf(j + 1, d);
      AuthStringInjective(d.user, d.pwd, c.user, c.pwd);
      var i :| 0 <= i < |s| && s[i] == a;
      assert Conflict(s[i], r);
    }
  }

  // The first entry that joins like entry `i`.
  lemma {:induction false} FirstIndex(config: seq<ClientInfo>, i: nat) returns (j: nat)
    requires i < |config|
    ensures j <= i && FirstJoined(config, j)
    ensures Joined(config[j].user, config[j].pwd) == Joined(config[i].user, config[i].pwd)
    decreases i
  {
    j := i;
    if !FirstJoined(config, i) {
      var k :| 0 <= k < i
        && Joined(config[k].user, config[k].pwd) == Joined(config[i].user, config[i].pwd);
      j := FirstIndex(config, k);
    }
  }

  lemma EmplaceKeepsOrder(s: seq<AuthUser>, front: seq<ClientInfo>, c: ClientInfo)
    requires HoldsFirsts(s, front)
    ensures Increasing(EmplaceBack(s, RecordOf(|front| + 1, c)))
  {
    forall i | 0 <= i < |s|
      ensures s[i].id <= |front|
    {
      assert s[i] in s;
    }
  }

  lemma EmplaceKeepsRecords(s: seq<AuthUser>, front: seq<ClientInfo>, c: ClientInfo, a: AuthUser)
    requires a in s ==> IsRecord(front, a)
    requires a in EmplaceBack(s, RecordOf(|front| + 1, c))
    ensures IsRecord(front + [c], a)
  {
    if a in s {
      assert (front + [c])[a.id - 1] == front[a.id - 1];
    }
  }

  lemma EmplaceHoldsFirst(s: seq<AuthUser>, front: seq<ClientInfo>, c: ClientInfo, i: nat)
    requires Loaded(front + [c]) && HoldsFirsts(s, front) && i <= |front|
    ensures Holds(EmplaceBack(s, RecordOf(|front| + 1, c)), front + [c], i)
       <==> FirstJoined(front + [c], i)
  {
    var config := front + [c];
    var r := RecordOf(|front| + 1, c);
    assert r !in s by {
      assert !IsRecord(front, r);
    }
    if i < |front| {
      assert RecordOf(i + 1, config[i]) != r && (Holds(s, front, i) <==> FirstJoined(front, i));
      assert forall j :: 0 <= j <= i ==> config[j] == front[j];
      assert FirstJoined(config, i) <==> FirstJoined(front, i);
    } else {
      RefusedIff(s, front, c);
    }
  }

  lemma {:induction false} LoadHoldsFirsts(config: seq<ClientInfo>)
    requires Loaded(config)
    ensures HoldsFirsts(Load(config), config)
  {
    if config != [] {
      var front, c := config[..|config| - 1], config[|config| - 1];
      var s := Load(front);
      LoadHoldsFirsts(front);
      assert config == front + [c];
      assert Load(config) == EmplaceBack(s, RecordOf(|front| + 1, c));
      EmplaceKeepsOrder(s, front, c);
      forall a | a in Load(config)
        ensures IsRecord(config, a)
      {
        EmplaceKeepsRecords(s, front, c, a);
      }
      forall i | 0 <= i < |config|
        ensures Holds(Load(config), config, i) <==> FirstJoined(config, i)
      {
        EmplaceHoldsFirst(s, front, c, i);
      }
    }
  }

  // ---- The lookups agree ----

  // A pair is found iff it was configured and no earlier entry joins to the same string.
  lemma PairFoundIff(config: seq<ClientInfo>, user: bytes, pwd: bytes)
    requires Loaded(config)
    ensures FindPair(Load(config), user, pwd).Some?
       <==> exists i :: 0 <= i < |config| && config[i].user == user && config[i].pwd == pwd
                        && FirstJoined(config, i)
  {
    LoadHoldsFirsts(config);
    var s := Load(config);
    var r := FindPair(s, user, pwd);
    if r.Some? {
      var i := r.value.id - 1;
      assert IsRecord(config, r.value) && Holds(s, config, i);
      assert config[i].user == user && config[i].pwd == pwd && FirstJoined(config, i);
    }
    if i :| 0 <= i < |config| && config[i].user == user && config[i].pwd == pwd
            && FirstJoined(config, i) {
      assert Holds(s, config, i);
    }
  }

  // The HTTP lookup finds the record, if any, whose user and password join to the queried string.
  lemma Base64FoundIff(config: seq<ClientInfo>, user: bytes, pwd: bytes, a: AuthUser)
    requires Loaded(config)
    ensures FindBase64(Load(config), AuthString(user, pwd)) == Some(a)
       <==> a in Load(config) && Joined(a.user, a.pwd) == Joined(user, pwd)
  {
    LoadHoldsFirsts(config);
    var s := Load(config);
    AuthStringInjective(a.user, a.pwd, user, pwd);
    var r := FindBase64(s, AuthString(user, pwd));
    if r.Some? && a in s {
      AuthStringInjective(r.value.user, r.value.pwd, user, pwd);
      if Joined(a.user, a.pwd) == Joined(user, pwd) {
        OneRecordPerString(config, a, r.value);
      }
    }
  }

  lemma OneRecordPerString(config: seq<ClientInfo>, a: AuthUser, b: AuthUser)
    requires Loaded(config) && a in Load(config) && b in Load(config)
    requires Joined(a.user, a.pwd) == Joined(b.user, b.pwd)
    ensures a == b
  {
    LoadHoldsFirsts(config);
    assert IsRecord(config, a) && IsRecord(config, b);
    var i, j := a.id - 1, b.id - 1;
    assert Holds(Load(config), config, i) && Holds(Load(config), config, j);
    assert FirstJoined(config, i) && FirstJoined(config, j);
  }

  lemma FirstColon(u: bytes, p: bytes)
    requires COLON !in u
    ensures Joined(u, p)[|u|] == COLON && forall i :: 0 <= i < |u| ==> Joined(u, p)[i] != COLON
    ensures Joined(u, p)[..|u|] == u && Joined(u, p)[|u| + 1..] == p
  {
    assert forall i :: 0 <= i < |u| ==> Joined(u, p)[i] == u[i] && u[i] in u;
  }

  // A colon-free user name is recovered from the joined string.
  lemma JoinedColonFree(u: bytes, p: bytes, v: bytes, q: bytes)
    requires COLON !in u && COLON !in v
    requires Joined(u, p) == Joined(v, q)
    ensures u == v && p == q
  {
    FirstColon(u, p);
    FirstColon(v, q);
  }

  predicate Agree(s: seq<AuthUser>, user: bytes, pwd: bytes) {
    FindPair(s, user, pwd) == FindBase64(s, AuthString(user, pwd))
  }

  // One query: the two lookups agree unless another stored pair joins to the queried string.
  lemma AgreeIff(config: seq<ClientInfo>, user: bytes, pwd: bytes)
    requires Loaded(config)
    ensures Agree(Load(config), user, pwd)
       <==> forall a :: a in Load(config) && Joined(a.user, a.pwd) == Joined(user, pwd)
                        ==> a.user == user && a.pwd == pwd
  {
    var s := Load(config);
    var r, t := FindPair(s, user, pwd), FindBase64(s, AuthString(user, pwd));
    if r.Some? {
      Base64FoundIff(config, user, pwd, r.value);
      forall a | a in s && Joined(a.user, a.pwd) == Joined(user, pwd)
        ensures a == r.value
      {
        OneRecordPerString(config, a, r.value);
      }
    } else if t.Some? {
      Base64FoundIff(config, user, pwd, t.value);
    } else {
      forall a | a in s && Joined(a.user, a.pwd) == Joined(user, pwd)
        ensures false
      {
        Base64FoundIff(config, user, pwd, a);
      }
    }
  }

  // All queries an HTTP client can make, whose user names are colon-free (RFC 7617 section 2): the two
  // lookups return the same record for every one of them iff the stored user names are colon-free.
  lemma LookupsAgreeIffColonFree(config: seq<ClientInfo>)
    requires Loaded(config)
    ensures (forall user, pwd :: COLON !in user ==> Agree(Load(config), user, pwd))
       <==> (forall a :: a in Load(config) ==> COLON !in a.user)
  {
    var s := Load(config);
    if forall a :: a in s ==> COLON !in a.user {
      forall user, pwd | COLON !in user
        ensures Agree(s, user, pwd)
      {
        AgreeIff(config, user, pwd);
        forall a | a in s && Joined(a.user, a.pwd) == Joined(user, pwd)
          ensures a.user == user && a.pwd == pwd
        {
          JoinedColonFree(a.user, a.pwd, user, pwd);
        }
      }
    } else {
      var a :| a in s && COLON in a.user;
      var user, pwd := SplitAtColon(a.user, a.pwd);
      AgreeIff(config, user, pwd);
      assert !Agree(s, user, pwd);
    }
  }

  // The other reading of a joined string whose user name holds a colon.
  lemma {:induction false} SplitAtColon(u: bytes, p: bytes) returns (v: bytes, q: bytes)
    requires COLON in u
    ensures COLON !in v && v != u && Joined(v, q) == Joined(u, p)
  {
    if u[0] == COLON {
      v, q := [], u[1..] + [COLON] + p;
      assert u == [COLON] + u[1..];
    } else {
      v, q := SplitAtColon(u[1..], p);
      assert Joined(u, p) == [u[0]] + Joined(u[1..], p);
      assert Joined([u[0]] + v, q) == [u[0]] + Joined(v, q);
      v := [u[0]] + v;
    }
  }

  // With colon-free configured names the store is the distinct pairs in first-occurrence order, and
  // nothing else, and a login succeeds iff it is configured.
  lemma ColonFreeStore(config: seq<ClientInfo>, user: bytes, pwd: bytes)
    requires Loaded(config) && forall i :: 0 <= i < |config| ==> COLON !in config[i].user
    ensures Increasing(Load(config)) && forall a :: a in Load(config) ==> IsRecord(config, a)
    ensures forall i :: 0 <= i < |config| ==>
                          (Holds(Load(config), config, i)
                           <==> forall j :: 0 <= j < i ==> !SameLogin(config[j], config[i]))
    ensures FindPair(Load(config), user, pwd).Some?
       <==> exists i :: 0 <= i < |config| && config[i].user == user && config[i].pwd == pwd
  {
    LoadHoldsFirsts(config);
    forall i, j | 0 <= j < i < |config|
      ensures SameLogin(config[j], config[i])
         <==> Joined(config[j].user, config[j].pwd) == Joined(config[i].user, config[i].pwd)
    {
      if Joined(config[j].user, config[j].pwd) == Joined(config[i].user, config[i].pwd) {
        JoinedColonFree(config[j].user, config[j].pwd, config[i].user, config[i].pwd);
      }
    }
    PairFoundIff(config, user, pwd);
    if i :| 0 <= i < |config| && config[i].user == user && config[i].pwd == pwd {
      var k := FirstIndex(config, i);
      JoinedColonFree(config[k].user, config[k].pwd, config[i].user, config[i].pwd);
    }
  }

  // Without that, a configured login can be dropped: the second of these entries always is.
  lemma ColonDropsALogin(u: bytes, x: bytes, p: bytes)
    requires u != []
    ensures var c1 := ClientInfo(u, x + [COLON] + p, AuthString(u, x + [COLON] + p));
            var c2 := ClientInfo(u + [COLON] + x, p, AuthString(u + [COLON] + x, p));
            Loaded([c1, c2]) && FindPair(Load([c1, c2]), c2.user, c2.pwd).None?
  {
    var c1 := ClientInfo(u, x + [COLON] + p, AuthString(u, x + [COLON] + p));
    var c2 := ClientInfo(u + [COLON] + x, p, AuthString(u + [COLON] + x, p));
    assert c1.user != c2.user by {
      assert |c1.user| < |c2.user|;
    }
    assert Joined(c1.user, c1.pwd) == Joined(c2.user, c2.pwd);
    var config := [c1, c2];
    assert config[0] == c1 && config[1] == c2;
    assert !FirstJoined(config, 1) by {
      assert Joined(config[0].user, config[0].pwd) == Joined(config[1].user, config[1].pwd);
    }
    PairFoundIff(config, c2.user, c2.pwd);
  }

  // The id lookup inverts the id of every stored record.
  lemma IdInverse(config: seq<ClientInfo>, a: AuthUser)
    requires Loaded(config) && a in Load(config)
    ensures FindId(Load(config), a.id) == Some(a)
  {
    LoadHoldsFirsts(config);
  }

  // The store is empty, so that nobody has to authenticate, iff nothing is configured.
  lemma DemandedIffConfigured(config: seq<ClientInfo>)
    requires Loaded(config)
    ensures Load(config) != [] <==> config != []
  {
    LoadHoldsFirsts(config);
    if config != [] {
      assert FirstJoined(config, 0) && Holds(Load(config), config, 0);
    }
  }

  // Every stored record is that of a configured login.
  lemma StoredIsConfigured(config: seq<ClientInfo>, a: AuthUser)
    requires Loaded(config) && a in Load(config)
    ensures exists i :: 0 <= i < |config| && config[i].user == a.user && config[i].pwd == a.pwd
  {
    LoadHoldsFirsts(config);
    assert IsRecord(config, a);
    assert config[a.id - 1].user == a.user;
  }
}
