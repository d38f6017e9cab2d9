/** Translating an OpenAI message list into an Anthropic conversation
    (TranslateOpenAIToAnthropic in proxy/translator.go). */
module Translator {
  import opened Common

  /** A content part; OtherPart is everything the translation skips. */
  datatype Part = TextPart(text: string) | ImagePart(url: string) | OtherPart

  /** Message content: absent, a string, a list of parts, or another JSON value as printed by %v. */
  datatype Content = NoContent | Text(text: string) | Parts(parts: seq<Part>) | Rendered(text: string)

  datatype ToolUse = ToolUse(id: string, name: string, arguments: string)

  datatype Message = Message(role: string, content: Content, toolCalls: seq<ToolUse>, toolCallId: string)

  /** An Anthropic content block; a tool use keeps its arguments undecoded. */
  datatype Block =
    | TextBlock(text: string)
    | ImageBlock(mediaType: string, data: string)
    | ToolUseBlock(id: string, name: string, arguments: string)
    | ToolResultBlock(toolUseId: string, content: string)

  datatype Turn = Turn(role: string, content: seq<Block>)

  function Join(parts: seq<string>, sep: string): string {
    if parts == [] then ""
    else if |parts| == 1 then parts[0]
    else Join(parts[..|parts| - 1], sep) + sep + parts[|parts| - 1]
  }

  function TextsOf(parts: seq<Part>): seq<string> {
    if parts == [] then []
    else
      var before := TextsOf(parts[..|parts| - 1]);
      var last := parts[|parts| - 1];
      if last.TextPart? then before + [last.text] else before
  }

  function ContentString(content: Content): string {
    match content
    case NoContent => ""
    case Text(text) => text
    case Parts(parts) => Join(TextsOf(parts), "\n")
    case Rendered(text) => text
  }

  function IndexOf(s: string, c: char): (i: Option<nat>)
    ensures i.Some? ==> i.value < |s| && s[i.value] == c && c !in s[..i.value]
    ensures i.None? ==> c !in s
  {
    if s == "" then None
    else if s[0] == c then Some(0)
    else
      var rest := IndexOf(s[1..], c);
      if rest.None? then None
      else
        assert s[..rest.value + 1] == [s[0]] + s[1..][..rest.value];
        Some(rest.value + 1)
  }

  /** data:<media type>;base64,<data>; anything else yields no block. */
  function ImageOf(url: string): (blocks: seq<Block>)
    ensures |blocks| <= 1
  {
    if |url| < 5 || url[..5] != "data:" then []
    else
      var comma := IndexOf(url, ',');
      if comma.None? then []
      else
        var header := url[..comma.value];
        var semi := IndexOf(header, ';');
        HeaderIsLong(url, comma.value);
        [ImageBlock(if semi.Some? then header[5..semi.value] else "image/jpeg", url[comma.value + 1..])]
  }

  lemma HeaderIsLong(url: string, comma: nat)
    requires |url| >= 5 && url[..5] == "data:" && comma < |url| && url[comma] == ','
    ensures 5 <= comma
    ensures IndexOf(url[..comma], ';').Some? ==> 5 <= IndexOf(url[..comma], ';').value
  {
    assert forall i | 0 <= i < 5 :: url[i] == "data:"[i];
  }

  function BlocksOfParts(parts: seq<Part>): seq<Block> {
    if parts == [] then []
    else
      var before := BlocksOfParts(parts[..|parts| - 1]);
      match parts[|parts| - 1]
      case TextPart(text) => before + [TextBlock(text)]
      case ImagePart(url) => before + ImageOf(url)
      case OtherPart => before
  }

  function BlocksOfContent(content: Content): seq<Block> {
    match content
    case NoContent => []
    case Text(text) => [TextBlock(text)]
    case Parts(parts) => BlocksOfParts(parts)
    case Rendered(text) => [TextBlock(text)]
  }

  function BlocksOfTools(calls: seq<ToolUse>): (blocks: seq<Block>)
    ensures |blocks| == |calls|
  {
    seq(|calls|, i requires 0 <= i < |calls| => ToolUseBlock(calls[i].id, calls[i].name, calls[i].arguments))
  }

  /** A tool response becomes one user block; other messages their content and tool calls. */
  function BlocksOf(m: Message): seq<Block> {
    if m.role == "tool" then [ToolResultBlock(m.toolCallId, ContentString(m.content))]
    else BlocksOfContent(m.content) + BlocksOfTools(m.toolCalls)
  }

  function RoleOf(m: Message): string {
    if m.role == "assistant" then "assistant" else "user"
  }

  // ---- The meaning of a conversation ----

  function Spoken(role: string, blocks: seq<Block>): (ps: seq<(string, Block)>)
    ensures |ps| == |blocks| && forall i | 0 <= i < |ps| :: ps[i] == (role, blocks[i])
  {
    seq(|blocks|, i requires 0 <= i < |blocks| => (role, blocks[i]))
  }

  /** Who says what, block by block. */
  function Flat(turns: seq<Turn>): seq<(string, Block)> {
    if turns == [] then [] else Flat(turns[..|turns| - 1]) + Spoken(turns[|turns| - 1].role, turns[|turns| - 1].content)
  }

  /** What the messages say, in order, system messages aside. */
  function Said(ms: seq<Message>): seq<(string, Block)> {
    if ms == [] then []
    else
      var before := Said(ms[..|ms| - 1]);
      var m := ms[|ms| - 1];
      if m.role == "system" then before else before + Spoken(RoleOf(m), BlocksOf(m))
  }

  function SystemTexts(ms: seq<Message>): seq<string> {
    if ms == [] then []
    else
      var before := SystemTexts(ms[..|ms| - 1]);
      var m := ms[|ms| - 1];
      if m.role == "system" then before + [ContentString(m.content)] else before
  }

  /** Roles alternate between user and assistant, and no turn is empty. */
  predicate Alternates(turns: seq<Turn>) {
    && (forall i | 0 <= i < |turns| :: turns[i].role in {"user", "assistant"} && turns[i].content != [])
    && (forall i | 0 < i < |turns| :: turns[i].role != turns[i - 1].role)
  }

  /** What Anthropic demands: a non-empty alternating conversation that the user opens. */
  predicate WellFormed(turns: seq<Turn>) {
    turns != [] && turns[0].role == "user" && Alternates(turns)
  }

  const HELLO: Turn := Turn("user", [TextBlock("Hello")])

  lemma FlatAppend(turns: seq<Turn>, t: Turn)
    ensures Flat(turns + [t]) == Flat(turns) + Spoken(t.role, t.content)
  {
    assert (turns + [t])[..|turns|] == turns;
  }

  lemma FlatMerge(turns: seq<Turn>, blocks: seq<Block>)
    requires turns != []
    ensures var n := |turns| - 1;
            Flat(turns[n := turns[n].(content := turns[n].content + blocks)]) == Flat(turns) + Spoken(turns[n].role, blocks)
  {
    var n := |turns| - 1;
    var merged := turns[n := turns[n].(content := turns[n].content + blocks)];
    assert merged[..n] == turns[..n];
    assert Spoken(turns[n].role, turns[n].content + blocks) == Spoken(turns[n].role, turns[n].content) + Spoken(turns[n].role, blocks);
    assert Flat(merged) == Flat(turns[..n]) + (Spoken(turns[n].role, turns[n].content) + Spoken(turns[n].role, blocks));
  }

  lemma {:induction false} FlatPrepend(t: Turn, turns: seq<Turn>)
    ensures Flat([t] + turns) == Spoken(t.role, t.content) + Flat(turns)
  {
    var all := [t] + turns;
    if turns == [] {
      assert all[..0] == [];
    } else {
      FlatPrepend(t, turns[..|turns| - 1]);
      assert all[..|all| - 1] == [t] + turns[..|turns| - 1];
    }
  }

  lemma {:induction false} FirstOfFlat(turns: seq<Turn>)
    requires Alternates(turns) && turns != []
    ensures Flat(turns) != [] && Flat(turns)[0].0 == turns[0].role
  {
    if |turns| > 1 {
      FirstOfFlat(turns[..|turns| - 1]);
    } else {
      assert turns[..0] == [];
    }
  }

  function WithoutSystem(ms: seq<Message>): seq<Message> {
    if ms == [] then []
    else
      var before := WithoutSystem(ms[..|ms| - 1]);
      if ms[|ms| - 1].role == "system" then before else before + [ms[|ms| - 1]]
  }

  /** Sets the system messages apart. */
  method SplitSystem(ms: seq<Message>) returns (systemParts: seq<string>, raw: seq<Message>)
    ensures systemParts == SystemTexts(ms) && raw == WithoutSystem(ms) && Said(raw) == Said(ms)
    ensures forall i | 0 <= i < |raw| :: raw[i].role != "system"
  {
    systemParts, raw := [], [];
    for k := 0 to |ms|
      invariant systemParts == SystemTexts(ms[..k]) && raw == WithoutSystem(ms[..k]) && Said(raw) == Said(ms[..k])
      invariant forall i | 0 <= i < |raw| :: raw[i].role != "system"
    {
      assert ms[..k + 1][..k] == ms[..k];
      if ms[k].role == "system" {
        systemParts := systemParts + [ContentString(ms[k].content)];
      } else {
        assert (raw + [ms[k]])[..|raw|] == raw;
        raw := raw + [ms[k]];
      }
    }
    assert ms[..|ms|] == ms;
  }

  /** The role and the blocks of one message. */
  method TranslateMessage(m: Message) returns (role: string, content: seq<Block>)
    ensures content == BlocksOf(m) && role == RoleOf(m)
  {
    role := m.role;
    if role != "user" && role != "assistant" && role != "tool" {
      role := "user";
    }
    content := [];
    if m.role == "tool" {
      role := "user";
      content := content + [ToolResultBlock(m.toolCallId, ContentString(m.content))];
    } else {
      if !m.content.NoContent? {
        content := content + BlocksOfContent(m.content);
      }
      for k := 0 to |m.toolCalls|
        invariant content == BlocksOfContent(m.content) + BlocksOfTools(m.toolCalls)[..k]
      {
        content := content + [ToolUseBlock(m.toolCalls[k].id, m.toolCalls[k].name, m.toolCalls[k].arguments)];
      }
    }
  }

  /** One message: skipped when empty, merged into a last turn of the same role, or a new turn. */
  method AddMessage(turns: seq<Turn>, m: Message) returns (result: seq<Turn>)
    requires Alternates(turns)
    ensures Alternates(result) && Flat(result) == Flat(turns) + Spoken(RoleOf(m), BlocksOf(m))
  {
    hide Flat, BlocksOf;
    var role, content := TranslateMessage(m);
    if |content| == 0 {
      return turns;
    }
    if |turns| > 0 && turns[|turns| - 1].role == role {
      var n := |turns| - 1;
      FlatMerge(turns, content);
      result := turns[n := turns[n].(content := turns[n].content + content)];
    } else {
      FlatAppend(turns, Turn(role, content));
      result := turns + [Turn(role, content)];
    }
  }

  /** Anthropic requires the user first. */
  method OpenWithUser(turns: seq<Turn>) returns (result: seq<Turn>)
    requires Alternates(turns)
    ensures WellFormed(result)
    ensures Flat(result) == if Flat(turns) != [] && Flat(turns)[0].0 == "user" then Flat(turns)
                            else Spoken(HELLO.role, HELLO.content) + Flat(turns)
  {
    hide Flat;
    result := turns;
    FlatPrepend(HELLO, turns);
    if |turns| > 0 {
      FirstOfFlat(turns);
      if turns[0].role != "user" {
        result := [HELLO] + turns;
      }
    } else {
      NothingSaid();
      result := [HELLO];
      assert [HELLO] + turns == result;
    }
  }

  /** Every message list translates to a well-formed conversation that says exactly what the
      messages say, after one leading "Hello" when the user would not open it. */
  method TranslateMessages(ms: seq<Message>) returns (system: string, turns: seq<Turn>)
    ensures system == Join(SystemTexts(ms), "\n\n")
    ensures WellFormed(turns)
    ensures Flat(turns) == if Said(ms) != [] && Said(ms)[0].0 == "user" then Said(ms)
                           else Spoken(HELLO.role, HELLO.content) + Said(ms)
  {
    hide Flat, Said, BlocksOf, Spoken;
    var systemParts, raw := SplitSystem(ms);
    system := Join(systemParts, "\n\n");
    turns := [];
    NothingSaid();
    for k := 0 to |raw|
      invariant Alternates(turns) && Flat(turns) == Said(raw[..k])
    {
      SaidStep(raw, k);
      turns := AddMessage(turns, raw[k]);
    }
    assert raw[..|raw|] == raw;
    turns := OpenWithUser(turns);
  }

  lemma SaidStep(raw: seq<Message>, k: nat)
    requires k < |raw|
    ensures Said(raw[..k + 1]) == if raw[k].role == "system" then Said(raw[..k])
                                  else Said(raw[..k]) + Spoken(RoleOf(raw[k]), BlocksOf(raw[k]))
  {
    assert raw[..k + 1][..k] == raw[..k];
  }

  lemma NothingSaid()
    ensures Flat([]) == [] && Said([]) == []
  {
  }

  /** The well-formed conversation is the only one that says what it says: merging messages
      of one role is forced, not a choice. */
  lemma {:induction false} ConversationIsUnique(a: seq<Turn>, b: seq<Turn>)
    requires Alternates(a) && Alternates(b) && Flat(a) == Flat(b)
    ensures a == b
    decreases |a| + |b|
  {
    if a == [] || b == [] {
      if a != [] { FirstOfFlat(a); }
      if b != [] { FirstOfFlat(b); }
    } else {
      LastTurnIsLongest(a, b);
      LastTurnIsLongest(b, a);
      var s, t := a[|a| - 1], b[|b| - 1];
      var n := |Flat(a)| - |s.content|;
      assert Flat(a)[..n] == Flat(a[..|a| - 1]) && Flat(b)[..n] == Flat(b[..|b| - 1]);
      assert Flat(a)[n..] == Spoken(s.role, s.content) && Flat(b)[n..] == Spoken(t.role, t.content);
      assert Spoken(s.role, s.content)[0] == Spoken(t.role, t.content)[0];
      assert s.content == t.content by {
        forall i | 0 <= i < |s.content| ensures s.content[i] == t.content[i] {
          assert Spoken(s.role, s.content)[i] == Spoken(t.role, t.content)[i];
        }
      }
      ConversationIsUnique(a[..|a| - 1], b[..|b| - 1]);
      assert a == a[..|a| - 1] + [s] && b == b[..|b| - 1] + [t];
    }
  }

  /** The block in front of the last turn, if any, is spoken by the other role. */
  lemma BeforeLastTurn(a: seq<Turn>)
    requires Alternates(a) && a != []
    ensures var s, f := a[|a| - 1], Flat(a);
            && |s.content| <= |f| && f[|f| - 1].0 == s.role
            && (|s.content| < |f| ==> f[|f| - |s.content| - 1].0 != s.role)
  {
    var p := a[..|a| - 1];
    if p != [] {
      var u := p[|p| - 1];
      assert u == a[|a| - 2];
      assert Flat(p)[|Flat(p)| - 1] == Spoken(u.role, u.content)[|u.content| - 1];
    }
  }

  lemma WithinLastTurn(b: seq<Turn>, i: int)
    requires Alternates(b) && b != []
    ensures var t, f := b[|b| - 1], Flat(b);
            |t.content| <= |f| && (|f| - |t.content| <= i < |f| ==> f[i].0 == t.role)
  {
    var t := b[|b| - 1];
    assert |Flat(b)| == |Flat(b[..|b| - 1])| + |t.content|;
  }

  /** The last turn holds the whole final run of one role. */
  lemma LastTurnIsLongest(a: seq<Turn>, b: seq<Turn>)
    requires Alternates(a) && Alternates(b) && a != [] && b != [] && Flat(a) == Flat(b)
    ensures |b[|b| - 1].content| <= |a[|a| - 1].content|
  {
    BeforeLastTurn(a);
    BeforeLastTurn(b);
    WithinLastTurn(b, |Flat(a)| - |a[|a| - 1].content| - 1);
  }
}
