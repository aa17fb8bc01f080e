/**
 * The zod request schemas (backend/src/types.ts) as parsers from a JSON body
 * to the validated value. `z.object` accepts extra keys and drops them from its
 * output; a missing key reads as `undefined`, which no `z.string()` accepts.
 * `LoginSchema` is declared again, identically, in backend/src/auth.ts:8-11.
 */
module Schemas {
  import opened Wrappers
  import opened Json

  /** `z.enum(['system', 'user', 'assistant'])`. */
  datatype Role = System | User | Assistant

  datatype LoginRequest = LoginRequest(username: string, password: string)
  datatype SettingsUpdate = SettingsUpdate(key: string, value: string)
  datatype KeyUpdate = KeyUpdate(providerId: string, apiKey: string)
  datatype ChatTurn = ChatTurn(role: Role, content: string)

  /** `z.string()` applied to an object member. */
  function AsString(member: Option<Json>): (r: Option<string>)
    ensures r.Some? <==> member.Some? && member.value.JStr?
    ensures r.Some? ==> member.value == JStr(r.value)
  {
    match member
    case Some(JStr(s)) => Some(s)
    case _ => None
  }

  /** `z.string().min(1)` applied to an object member. */
  function AsNonEmptyString(member: Option<Json>): (r: Option<string>)
    ensures r.Some? ==> |r.value| >= 1 && AsString(member) == r
    ensures AsString(member).Some? && |AsString(member).value| >= 1 ==> r.Some?
  {
    match AsString(member)
    case Some(s) => if |s| >= 1 then Some(s) else None
    case None => None
  }

  /** The wire name of a role. */
  function RoleName(role: Role): string
  {
    match role
    case System => "system"
    case User => "user"
    case Assistant => "assistant"
  }

  /** `z.enum(['system', 'user', 'assistant'])` applied to an object member. */
  function AsRole(member: Option<Json>): (r: Option<Role>)
    ensures r.Some? ==> member == Some(JStr(RoleName(r.value)))
  {
    match AsString(member)
    case Some("system") => Some(System)
    case Some("user") => Some(User)
    case Some("assistant") => Some(Assistant)
    case _ => None
  }

  // ---------------------------------------------------------------------------
  // LoginSchema (backend/src/types.ts:3, backend/src/auth.ts:8-11)
  // ---------------------------------------------------------------------------

  /** `LoginSchema.safeParse(body)`. */
  function ParseLogin(body: Json): (r: Option<LoginRequest>)
    ensures r.Some? ==> |r.value.username| >= 1 && |r.value.password| >= 1
    ensures r.Some? ==> Field(body, "username") == Some(JStr(r.value.username))
    ensures r.Some? ==> Field(body, "password") == Some(JStr(r.value.password))
  {
    match (AsNonEmptyString(Field(body, "username")), AsNonEmptyString(Field(body, "password")))
    case (Some(u), Some(p)) => Some(LoginRequest(u, p))
    case _ => None
  }

  /** The body the login page posts: `{ username, password }`. */
  function LoginJson(req: LoginRequest): Json
  {
    JObj(map["username" := JStr(req.username), "password" := JStr(req.password)])
  }

  /** Both credentials non-empty is exactly what the schema admits; anything else is refused. */
  lemma ParseLoginAccepts(req: LoginRequest)
    ensures ParseLogin(LoginJson(req)).Some? <==> |req.username| >= 1 && |req.password| >= 1
    ensures ParseLogin(LoginJson(req)).Some? ==> ParseLogin(LoginJson(req)) == Some(req)
  {
    assert Field(LoginJson(req), "username") == Some(JStr(req.username));
    assert Field(LoginJson(req), "password") == Some(JStr(req.password));
  }

  /** A non-string or missing credential is refused. */
  lemma ParseLoginRejectsNonString(body: Json)
    requires Field(body, "username").None? || !Field(body, "username").value.JStr?
          || Field(body, "password").None? || !Field(body, "password").value.JStr?
    ensures ParseLogin(body).None?
  {
  }

  // ---------------------------------------------------------------------------
  // SettingsUpdateSchema, KeyUpdateSchema (backend/src/types.ts:5-6)
  // ---------------------------------------------------------------------------

  /** `SettingsUpdateSchema.safeParse(body)`. */
  function ParseSettingsUpdate(body: Json): (r: Option<SettingsUpdate>)
    ensures r.Some? <==> AsString(Field(body, "key")).Some? && AsString(Field(body, "value")).Some?
    ensures r.Some? ==> Field(body, "key") == Some(JStr(r.value.key)) && Field(body, "value") == Some(JStr(r.value.value))
  {
    match (AsString(Field(body, "key")), AsString(Field(body, "value")))
    case (Some(k), Some(v)) => Some(SettingsUpdate(k, v))
    case _ => None
  }

  /** `KeyUpdateSchema.safeParse(body)`. */
  function ParseKeyUpdate(body: Json): (r: Option<KeyUpdate>)
    ensures r.Some? <==> AsString(Field(body, "provider_id")).Some? && AsString(Field(body, "api_key")).Some?
    ensures r.Some? ==> Field(body, "provider_id") == Some(JStr(r.value.providerId))
    ensures r.Some? ==> Field(body, "api_key") == Some(JStr(r.value.apiKey))
  {
    match (AsString(Field(body, "provider_id")), AsString(Field(body, "api_key")))
    case (Some(p), Some(k)) => Some(KeyUpdate(p, k))
    case _ => None
  }

  /** The body the admin page sends with `PUT /admin/settings`. */
  function SettingsUpdateJson(u: SettingsUpdate): Json
  {
    JObj(map["key" := JStr(u.key), "value" := JStr(u.value)])
  }

  /** The body the admin page sends with `PUT /admin/keys`. */
  function KeyUpdateJson(u: KeyUpdate): Json
  {
    JObj(map["provider_id" := JStr(u.providerId), "api_key" := JStr(u.apiKey)])
  }

  /** Every pair of strings passes, empty ones included (an empty `api_key` is how a key is deleted). */
  lemma UpdateSchemasAcceptAnyStrings(s: SettingsUpdate, k: KeyUpdate)
    ensures ParseSettingsUpdate(SettingsUpdateJson(s)) == Some(s)
    ensures ParseKeyUpdate(KeyUpdateJson(k)) == Some(k)
  {
    assert Field(SettingsUpdateJson(s), "key") == Some(JStr(s.key));
    assert Field(SettingsUpdateJson(s), "value") == Some(JStr(s.value));
    assert Field(KeyUpdateJson(k), "provider_id") == Some(JStr(k.providerId));
    assert Field(KeyUpdateJson(k), "api_key") == Some(JStr(k.apiKey));
  }

  // ---------------------------------------------------------------------------
  // PostMessageSchema (backend/src/types.ts:8-13)
  // ---------------------------------------------------------------------------

  /** One element of `messages`: `z.object({ role: z.enum(...), content: z.string() })`. */
  function ParseTurn(item: Json): (r: Option<ChatTurn>)
    ensures r.Some? ==> Field(item, "role") == Some(JStr(RoleName(r.value.role)))
    ensures r.Some? ==> Field(item, "content") == Some(JStr(r.value.content))
  {
    match (AsRole(Field(item, "role")), AsString(Field(item, "content")))
    case (Some(role), Some(c)) => Some(ChatTurn(role, c))
    case _ => None
  }

  /** `z.array(...)` over the items: every element must pass, and the order is kept. */
  function ParseTurns(items: seq<Json>): (r: Option<seq<ChatTurn>>)
    ensures r.Some? ==> |r.value| == |items|
    ensures r.Some? ==> forall i :: 0 <= i < |items| ==> ParseTurn(items[i]) == Some(r.value[i])
    ensures r.None? ==> exists i :: 0 <= i < |items| && ParseTurn(items[i]).None?
  {
    if items == [] then Some([])
    else
      match (ParseTurn(items[0]), ParseTurns(items[1..]))
      case (Some(t), Some(ts)) =>
        assert forall i :: 0 < i < |items| ==> items[i] == items[1..][i - 1];
        Some([t] + ts)
      case (None, _) => None
      case (_, None) =>
        assert forall i :: 0 < i < |items| ==> items[i] == items[1..][i - 1];
        None
  }

  /** `PostMessageSchema.safeParse(body)`: `{ messages: [...] }`. */
  function ParsePostMessage(body: Json): (r: Option<seq<ChatTurn>>)
    ensures Field(body, "messages").Some? && Field(body, "messages").value.JArr? ==>
      r == ParseTurns(Field(body, "messages").value.items)
    ensures !(Field(body, "messages").Some? && Field(body, "messages").value.JArr?) ==> r.None?
  {
    match Field(body, "messages")
    case Some(JArr(items)) => ParseTurns(items)
    case _ => None
  }

  /** One turn as the chat page sends it: `{ role, content }`. */
  function TurnJson(t: ChatTurn): Json
  {
    JObj(map["role" := JStr(RoleName(t.role)), "content" := JStr(t.content)])
  }

  /** The validated value of a body: only `messages` survives the parse. */
  function PostMessageJson(turns: seq<ChatTurn>): (j: Json)
    ensures j.JObj? && j.fields.Keys == {"messages"}
  {
    JObj(map["messages" := JArr(seq(|turns|, i requires 0 <= i < |turns| => TurnJson(turns[i])))])
  }

  /** One turn as the page sends it passes and comes back unchanged. */
  lemma ParseTurnOfJson(t: ChatTurn)
    ensures ParseTurn(TurnJson(t)) == Some(t)
  {
    var item := TurnJson(t);
    assert Field(item, "role") == Some(JStr(RoleName(t.role)));
    assert Field(item, "content") == Some(JStr(t.content));
    assert AsRole(Field(item, "role")) == Some(t.role) by {
      match t.role
      case System =>
      case User =>
      case Assistant =>
    }
  }

  /** Every list of turns passes, the empty list and empty contents included, and comes back unchanged. */
  lemma {:induction false} ParseTurnsOfJson(turns: seq<ChatTurn>)
    ensures ParseTurns(seq(|turns|, i requires 0 <= i < |turns| => TurnJson(turns[i]))) == Some(turns)
  {
    var items := seq(|turns|, i requires 0 <= i < |turns| => TurnJson(turns[i]));
    if turns != [] {
      var t := turns[0];
      ParseTurnOfJson(t);
      assert ParseTurn(items[0]) == Some(t);
      ParseTurnsOfJson(turns[1..]);
      assert items[1..] == seq(|turns[1..]|, i requires 0 <= i < |turns[1..]| => TurnJson(turns[1..][i]));
      assert [t] + turns[1..] == turns;
    }
  }

  /** Round trip of the stream request body. */
  lemma PostMessageRoundTrip(turns: seq<ChatTurn>)
    ensures ParsePostMessage(PostMessageJson(turns)) == Some(turns)
  {
    ParseTurnsOfJson(turns);
  }

  /** A role outside the enumeration anywhere in `messages` makes the whole body fail. */
  lemma PostMessageRejectsUnknownRole(items: seq<Json>, k: int, name: string)
    requires 0 <= k < |items|
    requires Field(items[k], "role") == Some(JStr(name))
    requires name != "system" && name != "user" && name != "assistant"
    ensures ParsePostMessage(JObj(map["messages" := JArr(items)])) == None
  {
    assert ParseTurn(items[k]) == None;
  }

  /** Keys beside `messages`, a top-level `content` among them, are ignored by the parse. */
  lemma PostMessageIgnoresExtraKeys(fields: map<string, Json>, items: seq<Json>)
    ensures ParsePostMessage(JObj(fields["messages" := JArr(items)]))
      == ParsePostMessage(JObj(map["messages" := JArr(items)]))
  {
  }

  /**
   * `{ messages: [] }` is a valid body: nothing requires a top-level `content`,
   * and the validated value never has one, since the parse keeps only `messages`.
   */
  lemma PostMessageWithoutContent()
    ensures ParsePostMessage(JObj(map["messages" := JArr([])])) == Some([])
    ensures ParsePostMessage(JObj(map["messages" := JArr([]), "content" := JStr("hi")])) == Some([])
    ensures forall turns: seq<ChatTurn> :: Field(PostMessageJson(turns), "content").None?
  {
    assert Field(JObj(map["messages" := JArr([])]), "messages") == Some(JArr([]));
  }
}
