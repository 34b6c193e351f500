/** Mapping a chatlog to events: exchangeIdentities, mapMessagesToEventsInner and
    FilterKnownTurns in internal/capture/chatlog.go. */
module Chatlog {
  import opened Wrappers
  import opened HashChain
  import opened Manifest
  import opened Bundle
  import opened Reconcile

  /** The parts of `ChatMessage` the mapping branches on or copies. `argsOk` is whether the
      tool arguments decode. */
  datatype Message = Message(
    line: nat, role: string, timestamp: string, model: string, requestId: string,
    conversationId: string, sessionId: string, rawLine: string, argsOk: bool)

  /** Outside values: generated request ids, the digest of an exchange's lines, the clock. */
  datatype Env = Env(generate: (string, nat) -> string, digest: seq<string> -> string, acquiredAt: string)

  ghost predicate EnvOk(env: Env)
  {
    forall ns, n :: env.generate(ns, n) != ""
  }

  const ADAPTER := "atb.chatlog.generic-jsonl"
  const ADAPTER_VERSION := "1.0.0"
  const REQUEST_RECEIVED := "ai.request.received"
  const TOOL_EXEC := "ai.tool.exec"
  const MODEL_INVOKED := "ai.model.invoked"
  const MODEL_OUTPUT := "ai.model.output"
  const RESPONSE_SENT := "ai.response.sent"

  predicate InExchange(role: string)
  {
    role == "user" || role == "assistant" || role == "tool"
  }

  predicate KnownRole(role: string)
  {
    role == "system" || InExchange(role)
  }

  /** `chatNamespace` */
  function Namespace(messages: seq<Message>): string
  {
    if messages == [] then "chatlog"
    else if messages[0].conversationId != "" then messages[0].conversationId
    else if messages[0].sessionId != "" then messages[0].sessionId
    else Namespace(messages[1..])
  }

  function UserId(env: Env, ns: string, m: Message, counter: nat): string
  {
    if m.requestId == "" then env.generate(ns, counter) else m.requestId
  }

  // ----- identities -----

  /** How many user turns are among the first `n` messages. */
  function Turns(messages: seq<Message>, n: nat): nat
    requires n <= |messages|
  {
    if n == 0 then 0 else Turns(messages, n - 1) + if messages[n - 1].role == "user" then 1 else 0
  }

  /** The exchange open after the first `n` messages: the request id of its user turn. */
  function Current(env: Env, messages: seq<Message>, n: nat): string
    requires n <= |messages|
  {
    if n == 0 then ""
    else if messages[n - 1].role == "user" then UserId(env, Namespace(messages), messages[n - 1], Turns(messages, n))
    else Current(env, messages, n - 1)
  }

  /** The exchange message `i` belongs to; "" for none. */
  function ExchangeOf(env: Env, messages: seq<Message>, i: nat): string
    requires i < |messages|
  {
    if InExchange(messages[i].role) then Current(env, messages, i + 1) else ""
  }

  /** The raw lines of one exchange, in order. */
  function LinesOf(env: Env, messages: seq<Message>, n: nat, id: string): seq<string>
    requires n <= |messages|
  {
    if n == 0 then []
    else
      LinesOf(env, messages, n - 1, id) +
      if id != "" && ExchangeOf(env, messages, n - 1) == id then [messages[n - 1].rawLine] else []
  }

  function ExchangeDigest(env: Env, messages: seq<Message>, id: string): string
  {
    env.digest(LinesOf(env, messages, |messages|, id))
  }

  /** `lines` holds the raw lines of every exchange among the first `n` messages. */
  ghost predicate Collected(env: Env, messages: seq<Message>, n: nat, lines: map<string, seq<string>>)
    requires n <= |messages|
  {
    (forall k | 0 <= k < n && ExchangeOf(env, messages, k) != "" :: ExchangeOf(env, messages, k) in lines) &&
    (forall id | id in lines :: id != "" && lines[id] == LinesOf(env, messages, n, id)) &&
    (forall id | id !in lines :: LinesOf(env, messages, n, id) == [])
  }

  function AddLine(lines: map<string, seq<string>>, id: string, line: string): map<string, seq<string>>
  {
    lines[id := (if id in lines then lines[id] else []) + [line]]
  }

  lemma CollectStep(env: Env, messages: seq<Message>, n: nat, lines: map<string, seq<string>>)
    requires n < |messages| && Collected(env, messages, n, lines)
    ensures var id := ExchangeOf(env, messages, n);
            Collected(env, messages, n + 1, if id != "" then AddLine(lines, id, messages[n].rawLine) else lines)
  {
    hide ExchangeOf;
  }

  lemma Collected0(env: Env, messages: seq<Message>)
    ensures Collected(env, messages, 0, map[])
  {
  }

  /** `exchangeIdentities` */
  method ExchangeIdentities(env: Env, messages: seq<Message>) returns (ids: seq<string>, digests: map<string, string>)
    requires EnvOk(env)
    ensures |ids| == |messages| && forall i | 0 <= i < |messages| :: ids[i] == ExchangeOf(env, messages, i)
    ensures forall i | 0 <= i < |messages| && ids[i] != "" :: ids[i] in digests
    ensures forall id | id in digests :: digests[id] == ExchangeDigest(env, messages, id)
  {
    hide Namespace, Collected, AddLine;
    var namespace := Namespace(messages);
    ids := [];
    var lines: map<string, seq<string>> := map[];
    var counter, current := 0, "";
    Collected0(env, messages);
    for i := 0 to |messages|
      invariant counter == Turns(messages, i) && current == Current(env, messages, i)
      invariant |ids| == i && forall k | 0 <= k < i :: ids[k] == ExchangeOf(env, messages, k)
      invariant Collected(env, messages, i, lines)
    {
      var m := messages[i];
      CollectStep(env, messages, i, lines);
      if m.role == "user" {
        counter := counter + 1;
        var requestId := m.requestId;
        if requestId == "" {
          requestId := env.generate(namespace, counter);
        }
        current := requestId;
        ids := ids + [requestId];
        lines := AddLine(lines, requestId, m.rawLine);
      } else if m.role == "assistant" || m.role == "tool" {
        ids := ids + [current];
        if current != "" {
          lines := AddLine(lines, current, m.rawLine);
        }
      } else {
        ids := ids + [""];
      }
    }
    digests := map id | id in lines :: env.digest(lines[id]);
    DigestsDone(env, messages, ids, lines);
  }

  lemma DigestsDone(env: Env, messages: seq<Message>, ids: seq<string>, lines: map<string, seq<string>>)
    requires |ids| == |messages| && forall i | 0 <= i < |messages| :: ids[i] == ExchangeOf(env, messages, i)
    requires Collected(env, messages, |messages|, lines)
    ensures forall i | 0 <= i < |messages| && ids[i] != "" :: ids[i] in lines
    ensures forall id | id in lines :: env.digest(lines[id]) == ExchangeDigest(env, messages, id)
  {
    hide ExchangeOf, LinesOf;
  }

  // ----- what an exchange is -----

  /** An exchange is opened by a user turn, under the turn's own request id or one generated from the
      namespace and the number of user turns so far, and stays open until the next user turn. */
  lemma {:induction false} ExchangeMeans(env: Env, messages: seq<Message>, n: nat) returns (j: int)
    requires n <= |messages|
    ensures -1 <= j < n && forall k | j < k < n :: messages[k].role != "user"
    ensures j == -1 ==> Current(env, messages, n) == ""
    ensures j >= 0 ==> messages[j].role == "user" && Turns(messages, j + 1) == Turns(messages, n)
    ensures j >= 0 ==>
            Current(env, messages, n) ==
              if messages[j].requestId != "" then messages[j].requestId
              else env.generate(Namespace(messages), Turns(messages, n))
  {
    hide Namespace;
    if n == 0 {
      j := -1;
    } else if messages[n - 1].role == "user" {
      j := n - 1;
    } else {
      j := ExchangeMeans(env, messages, n - 1);
    }
  }

  /** The namespace is the first conversation or session id any message has, or "chatlog". */
  lemma {:induction false} NamespaceMeans(messages: seq<Message>) returns (j: nat)
    ensures j <= |messages| && forall k | 0 <= k < j :: messages[k].conversationId == messages[k].sessionId == ""
    ensures j == |messages| ==> Namespace(messages) == "chatlog"
    ensures j < |messages| ==>
            Namespace(messages) != "" &&
            Namespace(messages) ==
              if messages[j].conversationId != "" then messages[j].conversationId else messages[j].sessionId
  {
    if messages == [] || messages[0].conversationId != "" || messages[0].sessionId != "" {
      j := 0;
    } else {
      var i := NamespaceMeans(messages[1..]);
      j := i + 1;
    }
  }

  /** The digest of an exchange is over the raw lines of all its messages, in their order. */
  lemma {:induction false} LinesMean(env: Env, messages: seq<Message>, n: nat, id: string) returns (at: seq<nat>)
    requires n <= |messages| && id != ""
    ensures forall i, j | 0 <= i < j < |at| :: at[i] < at[j]
    ensures forall i | 0 <= i < |at| :: at[i] < n && ExchangeOf(env, messages, at[i]) == id
    ensures forall k: nat | k < n && ExchangeOf(env, messages, k) == id :: k in at
    ensures |LinesOf(env, messages, n, id)| == |at|
    ensures forall i | 0 <= i < |at| :: LinesOf(env, messages, n, id)[i] == messages[at[i]].rawLine
  {
    hide ExchangeOf;
    at := [];
    if n > 0 {
      at := LinesMean(env, messages, n - 1, id);
      if ExchangeOf(env, messages, n - 1) == id {
        assert (n - 1) as nat in at + [n - 1];
        at := at + [n - 1];
      }
    }
  }

  // ----- mapping -----

  /** `EventSpec`, with the data fields that identify its exchange and source line. */
  datatype EventSpec = EventSpec(typ: string, requestId: string, sourceRole: string, sourceLine: nat,
      timestamp: string, acquisition: Acquisition)

  /** `buildAcquisitionInfo` */
  function BuildAcquisition(env: Env, m: Message, id: string, digest: string): Acquisition
  {
    Acquisition("retrospective", "chatlog", id, m.timestamp, env.acquiredAt, digest, ADAPTER, ADAPTER_VERSION,
      Some(CheckpointInfo("chatlog", "stdin", id, env.acquiredAt, ADAPTER, ADAPTER_VERSION)))
  }

  function Spec(env: Env, typ: string, requestId: string, m: Message, id: string, digest: string): EventSpec
  {
    EventSpec(typ, requestId, m.role, m.line, m.timestamp, BuildAcquisition(env, m, id, digest))
  }

  datatype MapError = BeforeUserTurn(line: nat) | BadToolArgs(line: nat) | UnknownTurn(turn: nat)

  datatype Mapping = Mapping(events: seq<EventSpec>, skipped: nat, modelTurnSeen: bool)

  /** The event types one message turns into. */
  function TypesFor(m: Message): seq<string>
  {
    if m.role == "user" then [REQUEST_RECEIVED]
    else if m.role == "tool" then [TOOL_EXEC]
    else if m.role == "assistant" then (if m.model != "" then [MODEL_INVOKED, MODEL_OUTPUT] else []) + [RESPONSE_SENT]
    else []
  }

  /** Why message `i` cannot be mapped. */
  function MessageError(env: Env, messages: seq<Message>, i: nat): Option<MapError>
    requires i < |messages|
  {
    var m := messages[i];
    if !KnownRole(m.role) then Some(UnknownTurn(i))
    else if (m.role == "tool" || m.role == "assistant") && Current(env, messages, i) == "" then
      Some(BeforeUserTurn(m.line))
    else if m.role == "tool" && !m.argsOk then Some(BadToolArgs(m.line))
    else None
  }

  /** An event belongs to message `i`: its request id, source record and digest are those of the exchange. */
  ghost predicate FromMessage(env: Env, messages: seq<Message>, i: nat, e: EventSpec)
    requires i < |messages|
  {
    var id := ExchangeOf(env, messages, i);
    id != "" && e.requestId == id &&
    e.acquisition == BuildAcquisition(env, messages[i], id, ExchangeDigest(env, messages, id)) &&
    e.typ in TypesFor(messages[i]) && e.sourceRole == messages[i].role && e.sourceLine == messages[i].line &&
    e.timestamp == messages[i].timestamp
  }

  /** The types of the events the first `n` messages turn into, in order. */
  function AllTypes(messages: seq<Message>, n: nat): seq<string>
    requires n <= |messages|
  {
    if n == 0 then [] else AllTypes(messages, n - 1) + TypesFor(messages[n - 1])
  }

  function CountIf(messages: seq<Message>, n: nat, p: Message -> bool): nat
    requires n <= |messages|
  {
    if n == 0 then 0 else CountIf(messages, n - 1, p) + if p(messages[n - 1]) then 1 else 0
  }

  /** The events are those the messages call for, in order, each from its own message. */
  ghost predicate AllFrom(env: Env, messages: seq<Message>, n: nat, events: seq<EventSpec>, origin: seq<nat>)
    requires n <= |messages|
  {
    |origin| == |events| == |AllTypes(messages, n)| &&
    (forall k | 0 <= k < |events| :: events[k].typ == AllTypes(messages, n)[k]) &&
    (forall k | 0 <= k < |events| :: origin[k] < n && FromMessage(env, messages, origin[k], events[k])) &&
    (forall j, k | 0 <= j < k < |origin| :: origin[j] <= origin[k])
  }

  /** `mapMessagesToEventsInner`. It keeps its own count and current request id; `origin[k]` is
      the message event `k` was made from. */
  method MapMessages(env: Env, messages: seq<Message>) returns (r: Result<Mapping, MapError>, ghost origin: seq<nat>)
    requires EnvOk(env)
    ensures r.Ok? <==> forall i | 0 <= i < |messages| :: MessageError(env, messages, i).None?
    ensures r.Err? ==> exists i | 0 <= i < |messages| ::
              MessageError(env, messages, i) == Some(r.error) &&
              forall j | 0 <= j < i :: MessageError(env, messages, j).None?
    ensures r.Ok? ==> AllFrom(env, messages, |messages|, r.value.events, origin)
    ensures r.Ok? ==> r.value.skipped == CountIf(messages, |messages|, (m: Message) => m.role == "system")
    ensures r.Ok? ==>
            (r.value.modelTurnSeen <==>
             exists i | 0 <= i < |messages| :: messages[i].role == "assistant" && messages[i].model != "")
  {
    hide Namespace, Spec, ExchangeDigest, FromMessage, AllFrom, Turns, CountIf, MessageError, ExchangeOf, AllTypes;
    var events: seq<EventSpec> := [];
    origin := [];
    var requestCounter, current, skipped, modelTurnSeen := 0, "", 0, false;
    var namespace := Namespace(messages);
    var ids, digests := ExchangeIdentities(env, messages);
    MapStart(env, messages);
    for i := 0 to |messages|
      invariant requestCounter == Turns(messages, i) && current == Current(env, messages, i)
      invariant forall j | 0 <= j < i :: MessageError(env, messages, j).None?
      invariant AllFrom(env, messages, i, events, origin)
      invariant skipped == CountIf(messages, i, (m: Message) => m.role == "system")
      invariant modelTurnSeen <==> exists j | 0 <= j < i :: messages[j].role == "assistant" && messages[j].model != ""
    {
      var m := messages[i];
      MapTurn(env, messages, i);
      var emitted: seq<EventSpec> := [];
      if m.role == "system" {
        skipped := skipped + 1;
      } else if m.role == "user" {
        requestCounter := requestCounter + 1;
        var requestId := m.requestId;
        if requestId == "" {
          requestId := env.generate(namespace, requestCounter);
        }
        current := requestId;
        emitted := [Spec(env, REQUEST_RECEIVED, requestId, m, ids[i], digests[ids[i]])];
      } else if m.role == "tool" {
        if current == "" {
          return Err(BeforeUserTurn(m.line)), [];
        }
        if !m.argsOk {
          return Err(BadToolArgs(m.line)), [];
        }
        emitted := [Spec(env, TOOL_EXEC, current, m, ids[i], digests[ids[i]])];
      } else if m.role == "assistant" {
        if current == "" {
          return Err(BeforeUserTurn(m.line)), [];
        }
        if m.model != "" {
          emitted := emitted + [Spec(env, MODEL_INVOKED, current, m, ids[i], digests[ids[i]])];
          emitted := emitted + [Spec(env, MODEL_OUTPUT, current, m, ids[i], digests[ids[i]])];
          modelTurnSeen := true;
        }
        emitted := emitted + [Spec(env, RESPONSE_SENT, current, m, ids[i], digests[ids[i]])];
      } else {
        return Err(UnknownTurn(i)), [];
      }
      AllFromGrows(env, messages, i, events, origin, emitted, current);
      events := events + emitted;
      origin := origin + seq(|emitted|, _ => i);
    }
    r := Ok(Mapping(events, skipped, modelTurnSeen));
  }

  lemma MapStart(env: Env, messages: seq<Message>)
    ensures AllFrom(env, messages, 0, [], []) && Turns(messages, 0) == 0
    ensures CountIf(messages, 0, (m: Message) => m.role == "system") == 0
  {
  }

  /** What message `i` does to the running values, and its exchange. */
  lemma MapTurn(env: Env, messages: seq<Message>, i: nat)
    requires i < |messages| && EnvOk(env)
    ensures var m := messages[i];
            Turns(messages, i + 1) == Turns(messages, i) + (if m.role == "user" then 1 else 0) &&
            (m.role == "user" ==>
              ExchangeOf(env, messages, i) == UserId(env, Namespace(messages), m, Turns(messages, i + 1)) != "") &&
            (InExchange(m.role) ==> ExchangeOf(env, messages, i) == Current(env, messages, i + 1)) &&
            CountIf(messages, i + 1, (m: Message) => m.role == "system") ==
              CountIf(messages, i, (m: Message) => m.role == "system") + (if m.role == "system" then 1 else 0)
    ensures var m := messages[i];
            MessageError(env, messages, i) ==
              if !KnownRole(m.role) then Some(UnknownTurn(i))
              else if (m.role == "tool" || m.role == "assistant") && Current(env, messages, i) == "" then
                Some(BeforeUserTurn(m.line))
              else if m.role == "tool" && !m.argsOk then Some(BadToolArgs(m.line))
              else None
  {
    hide Namespace;
  }

  /** Events with the exchange's id and digest, one per type of message `i`, continue the list. */
  lemma AllFromGrows(env: Env, messages: seq<Message>, i: nat, events: seq<EventSpec>, origin: seq<nat>,
      emitted: seq<EventSpec>, requestId: string)
    requires i < |messages| && AllFrom(env, messages, i, events, origin)
    requires var m, id := messages[i], ExchangeOf(env, messages, i);
             |emitted| == |TypesFor(m)| && (emitted != [] ==> id != "" && requestId == id) &&
             forall k | 0 <= k < |emitted| ::
               emitted[k] == Spec(env, TypesFor(m)[k], requestId, m, id, ExchangeDigest(env, messages, id))
    ensures AllFrom(env, messages, i + 1, events + emitted, origin + seq(|emitted|, _ => i))
  {
    hide ExchangeOf, ExchangeDigest, TypesFor, FromMessage, Spec;
    var more, origins := events + emitted, origin + seq(|emitted|, _ => i);
    var before, types := AllTypes(messages, i), TypesFor(messages[i]);
    assert AllTypes(messages, i + 1) == before + types;
    forall k | 0 <= k < |more|
      ensures origins[k] < i + 1 && FromMessage(env, messages, origins[k], more[k])
      ensures more[k].typ == AllTypes(messages, i + 1)[k]
    {
      if k < |events| {
        assert more[k] == events[k] && origins[k] == origin[k] && (before + types)[k] == before[k];
      } else {
        var j := k - |events|;
        assert more[k] == emitted[j] && origins[k] == i && (before + types)[k] == types[j];
        SpecFrom(env, messages, i, requestId, j);
      }
    }
  }

  lemma SpecFrom(env: Env, messages: seq<Message>, i: nat, requestId: string, j: nat)
    requires i < |messages| && j < |TypesFor(messages[i])| && ExchangeOf(env, messages, i) == requestId != ""
    ensures var digest := ExchangeDigest(env, messages, requestId);
            var e := Spec(env, TypesFor(messages[i])[j], requestId, messages[i], requestId, digest);
            FromMessage(env, messages, i, e) && e.typ == TypesFor(messages[i])[j]
  {
    hide ExchangeOf, ExchangeDigest, TypesFor, BuildAcquisition;
  }

  /** What an event of a mapping says: its type fits the role of its message - a request for a user
      turn, a tool run for a tool turn, an answer for an assistant turn, with a model invocation
      and output only where it names a model - and its acquisition names chat log, exchange, digest
      and time. */
  lemma EventSays(env: Env, messages: seq<Message>, i: nat, e: EventSpec)
    requires i < |messages| && FromMessage(env, messages, i, e)
    ensures var m, a := messages[i], e.acquisition;
            (m.role == "user" <==> e.typ == "ai.request.received") && (m.role == "tool" <==> e.typ == "ai.tool.exec") &&
            (m.role == "assistant" <==>
              e.typ == "ai.response.sent" || e.typ == "ai.model.invoked" || e.typ == "ai.model.output") &&
            (e.typ == "ai.model.invoked" || e.typ == "ai.model.output" ==> m.model != "") &&
            e.sourceRole == m.role && e.sourceLine == m.line && e.timestamp == m.timestamp &&
            a.mode == "retrospective" && a.sourceSystem == "chatlog" && a.sourceRecordId == e.requestId &&
            a.sourceDigest == ExchangeDigest(env, messages, e.requestId) && a.sourceTimestamp == m.timestamp &&
            a.acquiredAt == env.acquiredAt && a.adapter == "atb.chatlog.generic-jsonl" && a.adapterVersion == "1.0.0"
  {
    hide ExchangeOf, ExchangeDigest;
    TypesApart();
  }

  lemma TypesApart()
    ensures REQUEST_RECEIVED != TOOL_EXEC && REQUEST_RECEIVED != MODEL_INVOKED && REQUEST_RECEIVED != MODEL_OUTPUT
    ensures REQUEST_RECEIVED != RESPONSE_SENT && TOOL_EXEC != MODEL_INVOKED && TOOL_EXEC != MODEL_OUTPUT
    ensures TOOL_EXEC != RESPONSE_SENT && MODEL_INVOKED != MODEL_OUTPUT && MODEL_INVOKED != RESPONSE_SENT
    ensures MODEL_OUTPUT != RESPONSE_SENT
    ensures "user" != "tool" && "user" != "assistant" && "tool" != "assistant"
  {
    assert REQUEST_RECEIVED[3] == 'r' && TOOL_EXEC[3] == 't' && MODEL_INVOKED[3] == 'm' && MODEL_OUTPUT[3] == 'm';
    assert RESPONSE_SENT[3] == 'r' && RESPONSE_SENT[5] == 's' && REQUEST_RECEIVED[5] == 'q';
    assert MODEL_INVOKED[9] == 'i' && MODEL_OUTPUT[9] == 'o';
    assert "user"[0] == 'u' && "tool"[0] == 't' && "assistant"[0] == 'a';
  }

  /** The events of one message, in their order. */
  lemma TypesOf(m: Message)
    ensures m.role == "user" ==> TypesFor(m) == ["ai.request.received"]
    ensures m.role == "tool" ==> TypesFor(m) == ["ai.tool.exec"]
    ensures m.role == "assistant" && m.model == "" ==> TypesFor(m) == ["ai.response.sent"]
    ensures m.role == "assistant" && m.model != "" ==>
            TypesFor(m) == ["ai.model.invoked", "ai.model.output", "ai.response.sent"]
    ensures !InExchange(m.role) ==> TypesFor(m) == []
  {
    TypesApart();
  }

  /** The count in closed form: users, tools, assistants without a model, three per assistant with one. */
  lemma {:induction false} EventCount(messages: seq<Message>, n: nat)
    requires n <= |messages| && forall i | 0 <= i < n :: KnownRole(messages[i].role)
    ensures |AllTypes(messages, n)| ==
            CountIf(messages, n, (m: Message) => m.role == "user") +
            CountIf(messages, n, (m: Message) => m.role == "tool") +
            CountIf(messages, n, (m: Message) => m.role == "assistant" && m.model == "") +
            3 * CountIf(messages, n, (m: Message) => m.role == "assistant" && m.model != "")
  {
    if n > 0 { EventCount(messages, n - 1); }
  }

  // ----- skipping unknown turns -----

  /** `FilterKnownTurns`: the known messages in order, and the indices left out. */
  method FilterKnownTurns(messages: seq<Message>) returns (filtered: seq<Message>, unknown: seq<nat>)
    ensures forall i | 0 <= i < |filtered| :: KnownRole(filtered[i].role)
    ensures |filtered| + |unknown| == |messages|
    ensures forall i | 0 <= i < |unknown| :: unknown[i] < |messages| && !KnownRole(messages[unknown[i]].role)
    ensures forall i, j | 0 <= i < j < |unknown| :: unknown[i] < unknown[j]
    ensures filtered == Kept(messages, |messages|)
  {
    hide KnownRole;
    filtered, unknown := [], [];
    for i := 0 to |messages|
      invariant filtered == Kept(messages, i) && |filtered| + |unknown| == i
      invariant forall k | 0 <= k < |filtered| :: KnownRole(filtered[k].role)
      invariant forall k | 0 <= k < |unknown| :: unknown[k] < i && !KnownRole(messages[unknown[k]].role)
      invariant forall j, k | 0 <= j < k < |unknown| :: unknown[j] < unknown[k]
    {
      if KnownRole(messages[i].role) {
        filtered := filtered + [messages[i]];
      } else {
        unknown := unknown + [i];
      }
    }
  }

  function Kept(messages: seq<Message>, n: nat): seq<Message>
    requires n <= |messages|
  {
    if n == 0 then [] else Kept(messages, n - 1) + if KnownRole(messages[n - 1].role) then [messages[n - 1]] else []
  }

  // ----- importing the same chatlog twice -----

  /** Import events made from a mapping; what their data holds besides is left open. */
  ghost predicate MadeFrom(env: Env, messages: seq<Message>, events: seq<ImportEvent>, specs: seq<EventSpec>,
      origin: seq<nat>)
  {
    |events| == |specs| && AllFrom(env, messages, |messages|, specs, origin) &&
    forall k | 0 <= k < |events| :: events[k].acquisition == Some(specs[k].acquisition)
  }

  /** Mapped events are identified, named apart, and one digest per exchange. */
  lemma MappedIsClean(env: Env, messages: seq<Message>, events: seq<ImportEvent>, specs: seq<EventSpec>,
      origin: seq<nat>)
    requires MadeFrom(env, messages, events, specs, origin)
    ensures CleanInput(events) && forall k | 0 <= k < |events| :: Identified(events[k])
  {
    hide ExchangeOf, ExchangeDigest, TypesFor;
    forall k | 0 <= k < |events|
      ensures Identified(events[k]) && WellNamed(events[k])
      ensures events[k].acquisition.value.sourceDigest ==
              ExchangeDigest(env, messages, events[k].acquisition.value.sourceRecordId)
    {
      assert FromMessage(env, messages, origin[k], specs[k]);
      assert |"chatlog"| != |UNKNOWN_SYSTEM|;
    }
  }

  /** Importing a chatlog and importing it again in reconcile mode, at whatever later time, leaves
      the bundle of the first import unchanged. */
  lemma ChatlogTwice(h: Host, records: seq<Record>, reconcile: bool, messages: seq<Message>,
                     env: Env, events: seq<ImportEvent>, specs: seq<EventSpec>, origin: seq<nat>,
                     now: nat -> string, longer: seq<Record>,
                     later: string, again: seq<ImportEvent>, now': nat -> string)
    requires Verifies(h.sha, records) && records != [] && MadeFrom(env, messages, events, specs, origin)
    requires |again| == |events| && forall k | 0 <= k < |again| ::
      again[k].acquisition.Some? && again[k].acquisition.value == specs[k].acquisition.(
        acquiredAt := later, checkpoint := again[k].acquisition.value.checkpoint)
    requires var known := if reconcile then LoadKnown(records) else map[];
             ApplyAll(h, records, CallsOf(Plan(known, reconcile, events), now, |events|)) == Ok(longer)
    ensures ApplyAll(h, longer, CallsOf(Plan(LoadKnown(longer), true, again), now', |again|)) == Ok(longer)
  {
    hide Verifies, ApplyAll, CallsOf, Plan, LoadKnown, CleanInput, AllFrom;
    MappedIsClean(env, messages, events, specs, origin);
    SecondImportIsEmpty(h, records, reconcile, events, now, longer, again, now');
  }
}
