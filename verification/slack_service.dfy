/** `SlackBot`: which socket requests are counted, acknowledged and handed to the standup
    handler, which messages trigger the crew reply, and the texts the bot posts. The Slack
    clients are an append-only log of posted messages and a log of acknowledged envelopes; the
    crew lookup and the crew run are parameters, `None` when they raise. */
module Slack {
  import opened Wrappers
  import opened Text

  /** The `event` part of a payload. `eventType` is `None` when the payload has no event.
      `text` is `None` when the event has no text. */
  datatype Event = Event(eventType: Option<string>, channel: string, user: string,
                         botId: Option<string>, text: Option<string>)

  datatype Request = Request(kind: string, envelopeId: string, event: Event)

  /** A `chat_postMessage` call. */
  datatype Post = Post(channel: string, text: string)

  datatype Member = Member(name: string, role: string)

  datatype Listener = SocketHandler

  const TokensMissing := "SLACK_APP_TOKEN and SLACK_BOT_TOKEN must be set"
  const CrewHeader := "Current Crew Information:\n"
  const CrewApology := "Sorry, I encountered an error. Please try again."
  const StandupApology := "Sorry, I encountered an error while running the standup. Please try again."

  predicate Truthy(v: Option<string>) {
    v.Some? && v.value != ""
  }

  /** The constructor's check: both environment tokens set and non-empty. */
  function CheckTokens(appToken: Option<string>, botToken: Option<string>): (r: Result<(string, string), string>)
    ensures r.Success? <==> Truthy(appToken) && Truthy(botToken)
    ensures r.Success? ==> r.value == (appToken.value, botToken.value)
    ensures r.Failure? ==> r.error == TokensMissing
  {
    if !Truthy(appToken) || !Truthy(botToken) then Failure(TokensMissing)
    else Success((appToken.value, botToken.value))
  }

  /** The socket handler's gate. */
  predicate IsAppMention(req: Request) {
    req.kind == "events_api" && req.event.eventType == Some("app_mention")
  }

  /** `event.get("text", "").strip()` */
  function MessageText(event: Event): string {
    Strip(if event.text.Some? then event.text.value else "")
  }

  predicate FromBot(event: Event) {
    Truthy(event.botId)
  }

  predicate AsksForCrew(event: Event) {
    Contains(Lower(MessageText(event)), "crew")
  }

  predicate AsksForStandup(event: Event) {
    Contains(Lower(MessageText(event)), "standup")
  }

  /** Whitespace around the message never decides a command: each keyword test gives the
      same answer on the raw text. */
  lemma KeywordsIgnoreSurroundingSpace(event: Event)
    ensures var raw := if event.text.Some? then event.text.value else "";
      (AsksForCrew(event) <==> Contains(Lower(raw), "crew"))
      && (AsksForStandup(event) <==> Contains(Lower(raw), "standup"))
  {
    var raw := if event.text.Some? then event.text.value else "";
    var crew, standup := "crew", "standup";
    assert forall j :: 0 <= j < |crew| ==> !IsSpace(crew[j]);
    assert forall j :: 0 <= j < |standup| ==> !IsSpace(standup[j]);
    ContainsLowerStrip(raw, crew);
    ContainsLowerStrip(raw, standup);
  }

  function MemberLine(member: Member): string {
    "• " + member.name + " - " + member.role + "\n"
  }

  /** The member lines, in order, as the loop appends them. */
  function MemberLines(members: seq<Member>): string {
    if |members| == 0 then "" else MemberLines(members[..|members| - 1]) + MemberLine(members[|members| - 1])
  }

  /** The crew reply loop: the header, then one line per member. */
  method BuildCrewText(members: seq<Member>) returns (response: string)
    ensures response == CrewHeader + MemberLines(members)
  {
    response := "Current Crew Information:\n";
    var i := 0;
    while i < |members|
      invariant 0 <= i <= |members|
      invariant response == CrewHeader + MemberLines(members[..i])
    {
      var member := members[i];
      assert members[..i + 1][..i] == members[..i];
      response := response + "• " + member.name + " - " + member.role + "\n";
      i := i + 1;
    }
    assert members[..|members|] == members;
  }

  function CountNewlines(s: string): (n: nat)
    ensures n <= |s|
  {
    if |s| == 0 then 0 else CountNewlines(s[..|s| - 1]) + (if s[|s| - 1] == '\n' then 1 else 0)
  }

  lemma {:induction false} CountNewlinesAppend(a: string, b: string)
    ensures CountNewlines(a + b) == CountNewlines(a) + CountNewlines(b)
    decreases |b|
  {
    if |b| == 0 {
      assert a + b == a;
    } else {
      assert (a + b)[..|a + b| - 1] == a + b[..|b| - 1];
      CountNewlinesAppend(a, b[..|b| - 1]);
    }
  }

  lemma CountNewlinesFree(s: string)
    requires forall i :: 0 <= i < |s| ==> s[i] != '\n'
    ensures CountNewlines(s) == 0
    decreases |s|
  {
    if |s| > 0 {
      CountNewlinesFree(s[..|s| - 1]);
    }
  }

  /** One line per member: when no name or role holds a line break, the reply has exactly one
      more line than there are members. */
  lemma {:induction false} CrewTextLines(members: seq<Member>)
    requires forall m :: m in members ==> '\n' !in m.name && '\n' !in m.role
    ensures CountNewlines(CrewHeader + MemberLines(members)) == |members| + 1
  {
    MemberLinesCount(members);
    CountNewlinesAppend(CrewHeader, MemberLines(members));
    assert CrewHeader == "Current Crew Information:" + "\n";
    CountNewlinesFree("Current Crew Information:");
    CountNewlinesAppend("Current Crew Information:", "\n");
  }

  lemma {:induction false} MemberLinesCount(members: seq<Member>)
    requires forall m :: m in members ==> '\n' !in m.name && '\n' !in m.role
    ensures CountNewlines(MemberLines(members)) == |members|
    decreases |members|
  {
    if |members| > 0 {
      var m := members[|members| - 1];
      assert m in members;
      var init := members[..|members| - 1];
      assert forall x :: x in init ==> x in members;
      MemberLinesCount(init);
      var body := "• " + m.name + " - " + m.role;
      assert MemberLine(m) == body + "\n";
      CountNewlinesFree(body);
      CountNewlinesAppend(body, "\n");
      CountNewlinesAppend(MemberLines(init), MemberLine(m));
    }
  }

  /** Lines keep the members' order: the lines of the first `k` members begin the reply. */
  lemma {:induction false} MemberLinesPrefix(members: seq<Member>, k: nat)
    requires k <= |members|
    ensures MemberLines(members[..k]) <= MemberLines(members)
    decreases |members|
  {
    if k < |members| {
      var init := members[..|members| - 1];
      assert init[..k] == members[..k];
      MemberLinesPrefix(init, k);
    } else {
      assert members[..k] == members;
    }
  }

  /** What `_handle_crew_command` posts: the crew reply, or the apology when the lookup
      raises. */
  function CrewReply(channel: string, crewInfo: Option<seq<Member>>): (p: Post)
    ensures p.channel == channel
    ensures crewInfo.Some? ==> p.text == CrewHeader + MemberLines(crewInfo.value)
    ensures crewInfo.None? ==> p.text == CrewApology
  {
    Post(channel, if crewInfo.Some? then CrewHeader + MemberLines(crewInfo.value) else CrewApology)
  }

  /** What `_handle_message` posts: nothing for a bot's message or one not asking for the
      crew, else the crew reply in the event's channel. */
  function MessageReplies(event: Event, crewInfo: Option<seq<Member>>): (r: seq<Post>)
    ensures |r| <= 1
    ensures r != [] <==> !FromBot(event) && AsksForCrew(event)
    ensures r != [] ==> r[0] == CrewReply(event.channel, crewInfo)
  {
    if FromBot(event) then []
    else if AsksForCrew(event) then [CrewReply(event.channel, crewInfo)]
    else []
  }

  function StartText(user: string): string {
    "Starting standup process for <@" + user + ">... \U{1F680}"
  }

  function SummaryText(result: string): (t: string)
    ensures t != StandupApology
  {
    var t := "Standup Summary:\n```\n" + result + "\n```";
    assert t[1] == 't';
    var head, tail := "Sorry, I encountered an error while running ", "the standup. Please try again.";
    assert StandupApology == head + tail && head[1] == 'o';
    t
  }

  /** What `_handle_standup_command` posts: nothing unless the text asks for a standup; else
      the start notice, then the summary of the crew run or, when the run raises, the
      apology, all in the event's channel. */
  function StandupReplies(event: Event, kickoff: Option<string>): (r: seq<Post>)
    ensures r == [] <==> !AsksForStandup(event)
    ensures r != [] ==> |r| == 2 && r[0] == Post(event.channel, StartText(event.user))
                        && r[1].channel == event.channel
    ensures r != [] ==> (r[1].text == StandupApology <==> kickoff.None?)
    ensures r != [] && kickoff.Some? ==> r[1].text == SummaryText(kickoff.value)
  {
    if !AsksForStandup(event) then []
    else
      [Post(event.channel, StartText(event.user)),
       Post(event.channel, if kickoff.Some? then SummaryText(kickoff.value) else StandupApology)]
  }

  class SlackBot {
    var appToken: string
    var botToken: string
    var eventCounter: nat
    var listeners: seq<Listener>
    /** Envelope ids acknowledged on the socket, in order. */
    var acknowledged: seq<string>
    /** Messages posted through the web client, in order. */
    var posted: seq<Post>

    /** Construction once the tokens are known to be set: the counter starts at zero and the
        socket handler is registered. */
    constructor (appToken: string, botToken: string)
      requires appToken != "" && botToken != ""
      ensures this.appToken == appToken && this.botToken == botToken
      ensures eventCounter == 0 && listeners == [SocketHandler]
      ensures acknowledged == [] && posted == []
    {
      this.appToken := appToken;
      this.botToken := botToken;
      eventCounter := 0;
      acknowledged := [];
      posted := [];
      listeners := [];
      listeners := listeners + [SocketHandler];
    }

    /** `SlackBot(...)` with the tokens read from the environment. */
    static method Create(appToken: Option<string>, botToken: Option<string>) returns (r: Result<SlackBot, string>)
      ensures r.Failure? <==> CheckTokens(appToken, botToken).Failure?
      ensures r.Failure? ==> r.error == TokensMissing
      ensures r.Success? ==> fresh(r.value) && r.value.eventCounter == 0 && r.value.posted == []
                             && r.value.acknowledged == [] && r.value.listeners == [SocketHandler]
    {
      if !Truthy(appToken) || !Truthy(botToken) {
        return Failure(TokensMissing);
      }
      var bot := new SlackBot(appToken.value, botToken.value);
      return Success(bot);
    }

    /** The registered socket handler: an app mention is counted, acknowledged and handed to
        the standup handler; any other request changes nothing. */
    method HandleSocketRequest(req: Request, kickoff: Option<string>)
      modifies this
      ensures eventCounter == old(eventCounter) + (if IsAppMention(req) then 1 else 0)
      ensures acknowledged == old(acknowledged) + (if IsAppMention(req) then [req.envelopeId] else [])
      ensures posted == old(posted) + (if IsAppMention(req) then StandupReplies(req.event, kickoff) else [])
      ensures appToken == old(appToken) && botToken == old(botToken) && listeners == old(listeners)
    {
      if req.kind == "events_api" && req.event.eventType == Some("app_mention") {
        eventCounter := eventCounter + 1;
        acknowledged := acknowledged + [req.envelopeId];
        HandleStandupCommand(req.event, kickoff);
      }
    }

    /** `_handle_message` */
    method HandleMessage(event: Event, crewInfo: Option<seq<Member>>)
      modifies this
      ensures posted == old(posted) + MessageReplies(event, crewInfo)
      ensures eventCounter == old(eventCounter) && acknowledged == old(acknowledged)
      ensures appToken == old(appToken) && botToken == old(botToken) && listeners == old(listeners)
    {
      var text := MessageText(event);
      if event.botId.Some? && event.botId.value != "" {
        return;
      }
      if Contains(Lower(text), "crew") {
        HandleCrewCommand(event.channel, crewInfo);
      }
    }

    /** `_handle_crew_command` */
    method HandleCrewCommand(channel: string, crewInfo: Option<seq<Member>>)
      modifies this
      ensures posted == old(posted) + [CrewReply(channel, crewInfo)]
      ensures eventCounter == old(eventCounter) && acknowledged == old(acknowledged)
      ensures appToken == old(appToken) && botToken == old(botToken) && listeners == old(listeners)
    {
      match crewInfo
      case Some(members) =>
        var response := BuildCrewText(members);
        posted := posted + [Post(channel, response)];
      case None =>
        posted := posted + [Post(channel, CrewApology)];
    }

    /** `_handle_standup_command` */
    method HandleStandupCommand(event: Event, kickoff: Option<string>)
      modifies this
      ensures posted == old(posted) + StandupReplies(event, kickoff)
      ensures eventCounter == old(eventCounter) && acknowledged == old(acknowledged)
      ensures appToken == old(appToken) && botToken == old(botToken) && listeners == old(listeners)
    {
      var text := MessageText(event);
      if Contains(Lower(text), "standup") {
        posted := posted + [Post(event.channel, "Starting standup process for <@" + event.user + ">... \U{1F680}")];
        match kickoff
        case Some(result) =>
          posted := posted + [Post(event.channel, "Standup Summary:\n```\n" + result + "\n```")];
        case None =>
          posted := posted + [Post(event.channel, StandupApology)];
      }
    }
  }
}
