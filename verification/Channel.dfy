/** Channel names, principals and the join gate of channel.rs. */
module Channel {
  import opened Basics
  import opened Search
  import opened Text

  datatype ChannelId = Changes(name: string) | Broadcast(name: string) | Presence(name: string)

  datatype Principal = Principal(userId: string, tenantId: Option<string>, role: Option<string>)

  datatype TopicScope = ScopeNone | ScopeAuth | ScopeTenant

  /** The declared channels: change entities, broadcast topics and presence topics. */
  datatype Config = Config(
    changes: seq<string>, broadcast: seq<(string, TopicScope)>, presence: seq<(string, TopicScope)>)

  function ParseChannel(s: string): Option<ChannelId> {
    match SplitOnce(s, ':')
    case None => None
    case Some((kind, name)) =>
      if name == "" then None
      else if kind == "changes" then Some(Changes(name))
      else if kind == "broadcast" then Some(Broadcast(name))
      else if kind == "presence" then Some(Presence(name))
      else None
  }

  function KindOf(id: ChannelId): string {
    match id
    case Changes(_) => "changes"
    case Broadcast(_) => "broadcast"
    case Presence(_) => "presence"
  }

  function ChannelText(id: ChannelId): string { KindOf(id) + ":" + id.name }

  /** Parsing undoes printing. */
  lemma ChannelRoundTrip(id: ChannelId)
    requires id.name != ""
    ensures ParseChannel(ChannelText(id)) == Some(id)
  {
    hide Find, SplitOnce;
    var kind := KindOf(id);
    assert ':' !in kind;
    SplitOnceAt(kind, ':', id.name);
    assert ChannelText(id) == kind + [':'] + id.name;
  }

  /** Printing undoes parsing: no two texts name one channel. */
  lemma ChannelTextIsUnique(s: string)
    requires ParseChannel(s).Some?
    ensures ChannelText(ParseChannel(s).value) == s && ParseChannel(s).value.name != ""
  {
    hide Find;
    CharOccurs(s, ':');
    var i := Find(s, [':']).value;
    assert s == s[..i] + [':'] + s[i + 1..];
  }

  /** The scope of the first declaration of a topic. */
  function ScopeOf(topics: seq<(string, TopicScope)>, name: string): Option<TopicScope> {
    if topics == [] then None
    else if topics[0].0 == name then Some(topics[0].1)
    else ScopeOf(topics[1..], name)
  }

  function TenantOf(p: Option<Principal>): Option<string> {
    match p case None => None case Some(x) => x.tenantId
  }

  datatype JoinError = UnknownChannel | AuthenticationRequired | TenantRequired

  function ScopeAllows(scope: TopicScope, p: Option<Principal>): Result<(), JoinError> {
    match scope
    case ScopeNone => Ok(())
    case ScopeAuth => if p.Some? then Ok(()) else Err(AuthenticationRequired)
    case ScopeTenant => if TenantOf(p).Some? then Ok(()) else Err(TenantRequired)
  }

  function MayJoin(cfg: Config, id: ChannelId, p: Option<Principal>): Result<(), JoinError> {
    match id
    case Changes(entity) =>
      if entity !in cfg.changes then Err(UnknownChannel)
      else if p.None? then Err(AuthenticationRequired)
      else Ok(())
    case Broadcast(name) =>
      (match ScopeOf(cfg.broadcast, name) case None => Err(UnknownChannel) case Some(s) => ScopeAllows(s, p))
    case Presence(name) =>
      (match ScopeOf(cfg.presence, name) case None => Err(UnknownChannel) case Some(s) => ScopeAllows(s, p))
  }

  // ---------- the gate, from the declarations ----------

  /** `name` is declared with scope `s`; of several declarations the first counts. */
  ghost predicate Declared(topics: seq<(string, TopicScope)>, name: string, s: TopicScope) {
    exists i :: 0 <= i < |topics| && topics[i] == (name, s) && forall j :: 0 <= j < i ==> topics[j].0 != name
  }

  ghost predicate Undeclared(topics: seq<(string, TopicScope)>, name: string) {
    forall i :: 0 <= i < |topics| ==> topics[i].0 != name
  }

  lemma {:induction false} ScopeIsDeclared(topics: seq<(string, TopicScope)>, name: string, s: TopicScope)
    ensures ScopeOf(topics, name) == Some(s) <==> Declared(topics, name, s)
    ensures ScopeOf(topics, name) == None <==> Undeclared(topics, name)
    decreases topics
  {
    if topics != [] {
      var rest := topics[1..];
      assert forall i :: 0 <= i < |rest| ==> rest[i] == topics[i + 1];
      ScopeIsDeclared(rest, name, s);
      if topics[0].0 == name {
        assert topics[0].1 == s ==> topics[0] == (name, s);
      } else {
        DeclaredLater(topics, name, s);
      }
    }
  }

  lemma DeclaredLater(topics: seq<(string, TopicScope)>, name: string, s: TopicScope)
    requires topics != [] && topics[0].0 != name
    ensures Declared(topics, name, s) <==> Declared(topics[1..], name, s)
  {
    var rest := topics[1..];
    assert forall i :: 0 <= i < |rest| ==> rest[i] == topics[i + 1];
    if Declared(rest, name, s) {
      var i :| 0 <= i < |rest| && rest[i] == (name, s) && forall j :: 0 <= j < i ==> rest[j].0 != name;
      assert topics[i + 1] == (name, s) && forall j :: 0 <= j < i + 1 ==> topics[j].0 != name;
    }
    if Declared(topics, name, s) {
      var i :| 0 <= i < |topics| && topics[i] == (name, s) && forall j :: 0 <= j < i ==> topics[j].0 != name;
      assert rest[i - 1] == (name, s) && forall j :: 0 <= j < i - 1 ==> rest[j].0 != name;
    }
  }

  /** A topic everyone may be on, or users only, or users of some tenant only. */
  ghost predicate Admits(topics: seq<(string, TopicScope)>, name: string, p: Option<Principal>) {
    || Declared(topics, name, ScopeNone)
    || (Declared(topics, name, ScopeAuth) && p.Some?)
    || (Declared(topics, name, ScopeTenant) && p.Some? && p.value.tenantId.Some?)
  }

  /** Who may be on a channel. */
  ghost predicate Entitled(cfg: Config, id: ChannelId, p: Option<Principal>) {
    match id
    case Changes(entity) => entity in cfg.changes && p.Some?
    case Broadcast(name) => Admits(cfg.broadcast, name, p)
    case Presence(name) => Admits(cfg.presence, name, p)
  }

  ghost predicate Known(cfg: Config, id: ChannelId) {
    match id
    case Changes(entity) => entity in cfg.changes
    case Broadcast(name) => !Undeclared(cfg.broadcast, name)
    case Presence(name) => !Undeclared(cfg.presence, name)
  }

  ghost predicate TenantScoped(cfg: Config, id: ChannelId) {
    match id
    case Changes(_) => false
    case Broadcast(name) => Declared(cfg.broadcast, name, ScopeTenant)
    case Presence(name) => Declared(cfg.presence, name, ScopeTenant)
  }

  /** The gate lets in exactly who is entitled, and names what is missing. */
  lemma GateIsExact(cfg: Config, id: ChannelId, p: Option<Principal>)
    ensures MayJoin(cfg, id, p).Ok? <==> Entitled(cfg, id, p)
    ensures MayJoin(cfg, id, p) == Err(UnknownChannel) <==> !Known(cfg, id)
    ensures MayJoin(cfg, id, p) == Err(TenantRequired) <==>
            TenantScoped(cfg, id) && (p.Some? ==> p.value.tenantId.None?)
  {
    hide ScopeOf, Declared, Undeclared;
    if !id.Changes? {
      var topics := if id.Broadcast? then cfg.broadcast else cfg.presence;
      ScopeIsDeclared(topics, id.name, ScopeNone);
      ScopeIsDeclared(topics, id.name, ScopeAuth);
      ScopeIsDeclared(topics, id.name, ScopeTenant);
    }
  }

  predicate TenantTopic(cfg: Config, topic: string) { ScopeOf(cfg.broadcast, topic) == Some(ScopeTenant) }
}
