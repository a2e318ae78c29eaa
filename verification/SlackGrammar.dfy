/** The Slack command grammar as a parser over characters, its canonical printer, and the values
    behind the App Home buttons. */
module SlackGrammar {
  import opened JsonMerge
  import opened Commands
  import Delivery

  predicate White(c: char) {
    c == ' ' || c == '\t' || c == '\r' || c == '\n'
  }

  predicate QuoteMark(c: char) {
    c == '\'' || c == '"'
  }

  // ---------------------------------------------------------------- words

  /** Between words, in a word, inside quotes, or after a backslash outside or inside double quotes. */
  datatype Mode = Gap | Word | Quote(mark: char) | Escape(quoted: bool)

  function Cons(token: string, rest: Option<seq<string>>): Option<seq<string>> {
    if rest.Some? then Some([token] + rest.value) else None
  }

  /** Shell words; `None` for an open quotation or a backslash at the end. */
  function Lex(s: string, mode: Mode, token: string): Option<seq<string>>
    decreases |s|
  {
    if s == "" then
      match mode
      case Gap => Some([])
      case Word => Some([token])
      case _ => None
    else
      var c, rest := s[0], s[1..];
      match mode
      case Gap =>
        if White(c) then Lex(rest, Gap, "")
        else if c == '\\' then Lex(rest, Escape(false), "")
        else if QuoteMark(c) then Lex(rest, Quote(c), "")
        else Lex(rest, Word, [c])
      case Word =>
        if White(c) then Cons(token, Lex(rest, Gap, ""))
        else if c == '\\' then Lex(rest, Escape(false), token)
        else if QuoteMark(c) then Lex(rest, Quote(c), token)
        else Lex(rest, Word, token + [c])
      case Quote(mark) =>
        if c == mark then Lex(rest, Word, token)
        else if mark == '"' && c == '\\' then Lex(rest, Escape(true), token)
        else Lex(rest, mode, token + [c])
      case Escape(quoted) =>
        if quoted && c != '\\' && c != '"' then Lex(rest, Quote('"'), token + ['\\', c])
        else Lex(rest, if quoted then Quote('"') else Word, token + [c])
  }

  /** A word that the shell splitter and the mention filter leave alone. */
  predicate Plain(w: string) {
    w != "" && forall i | 0 <= i < |w| :: !White(w[i]) && !QuoteMark(w[i]) && w[i] != '\\' && w[i] != '<'
  }

  function Join(words: seq<string>): string {
    if words == [] then ""
    else if |words| == 1 then words[0]
    else words[0] + " " + Join(words[1..])
  }

  lemma {:induction false} LexWord(w: string, rest: string, token: string)
    requires forall i | 0 <= i < |w| :: !White(w[i]) && !QuoteMark(w[i]) && w[i] != '\\'
    ensures Lex(w + rest, Word, token) == Lex(rest, Word, token + w)
    decreases |w|
  {
    if w == "" {
      assert w + rest == rest && token + w == token;
    } else {
      assert (w + rest)[1..] == w[1..] + rest;
      assert token + w == (token + [w[0]]) + w[1..];
      LexWord(w[1..], rest, token + [w[0]]);
    }
  }

  lemma LexFirst(w: string, rest: string)
    requires Plain(w)
    ensures Lex(w + rest, Gap, "") == Lex(rest, Word, w)
  {
    assert (w + rest)[1..] == w[1..] + rest;
    LexWord(w[1..], rest, [w[0]]);
    assert [w[0]] + w[1..] == w;
  }

  /** Splitting undoes joining plain words with single blanks. */
  lemma {:induction false} LexJoin(words: seq<string>)
    requires forall i | 0 <= i < |words| :: Plain(words[i])
    ensures Lex(Join(words), Gap, "") == Some(words)
  {
    if words != [] {
      var rest := words[1..];
      assert forall i | 0 <= i < |rest| :: rest[i] == words[i + 1];
      if rest == [] {
        LexFirst(words[0], "");
        assert words[0] + "" == words[0] == Join(words);
        assert words == [words[0]];
      } else {
        LexJoin(rest);
        LexFirst(words[0], " " + Join(rest));
        assert words[0] + " " + Join(rest) == words[0] + (" " + Join(rest));
        assert (" " + Join(rest))[1..] == Join(rest);
        assert Lex(" " + Join(rest), Word, words[0]) == Cons(words[0], Some(rest));
        assert [words[0]] + rest == words;
      }
    }
  }

  // ---------------------------------------------------------------- cleaning

  /** Remove every `<@...>` mention. */
  function StripMentions(s: string): string
    decreases |s|
  {
    if s == "" then ""
    else
      var end := if |s| > 2 && s[0] == '<' && s[1] == '@' then 2 + IndexOf(s[2..], '>') else 0;
      if 2 < end < |s| then StripMentions(s[end + 1..]) else [s[0]] + StripMentions(s[1..])
  }

  function StripLeft(s: string): string {
    if s != "" && White(s[0]) then StripLeft(s[1..]) else s
  }

  function StripRight(s: string): string {
    if s != "" && White(s[|s| - 1]) then StripRight(s[..|s| - 1]) else s
  }

  lemma {:induction false} NoMentions(s: string)
    requires '<' !in s
    ensures StripMentions(s) == s
  {
    if s != "" {
      assert s[0] != '<';
      NoMentions(s[1..]);
      assert [s[0]] + s[1..] == s;
    }
  }

  lemma {:induction false} JoinShape(words: seq<string>)
    requires words != [] && forall i | 0 <= i < |words| :: Plain(words[i])
    ensures Join(words) != "" && '<' !in Join(words) && !White(Join(words)[0]) && !White(Join(words)[|Join(words)| - 1])
  {
    if |words| > 1 {
      assert forall i | 0 <= i < |words[1..]| :: words[1..][i] == words[i + 1];
      JoinShape(words[1..]);
      assert forall i | 0 <= i < |words[0]| :: words[0][i] != '<';
    }
  }

  function Tokens(text: string): Option<seq<string>> {
    Lex(StripRight(StripLeft(StripMentions(text))), Gap, "")
  }

  lemma TokensOfJoin(words: seq<string>)
    requires words != [] && forall i | 0 <= i < |words| :: Plain(words[i])
    ensures Tokens(Join(words)) == Some(words)
  {
    JoinShape(words);
    NoMentions(Join(words));
    LexJoin(words);
  }

  // ---------------------------------------------------------------- grammar

  function LowerChar(c: char): char {
    if 'A' <= c <= 'Z' then c - 'A' + 'a' else c
  }

  function Lower(s: string): string {
    seq(|s|, i requires 0 <= i < |s| => LowerChar(s[i]))
  }

  predicate LabelChar(c: char) {
    'a' <= c <= 'z' || '0' <= c <= '9'
  }

  predicate DnsLabel(s: string) {
    s != "" && LabelChar(s[0]) && LabelChar(s[|s| - 1]) && forall i | 0 <= i < |s| :: LabelChar(s[i]) || s[i] == '-'
  }

  predicate SkillId(s: string) {
    s != "" && LabelChar(s[0])
    && forall i | 0 <= i < |s| :: LabelChar(s[i]) || s[i] == '.' || s[i] == '_' || s[i] == '-'
  }

  datatype Why = Unbalanced | RunUsage | BadSkill | TrainingOnly | NotForAgents | UnknownVerb | NoTarget | BadTarget

  /** What a text means; `Quota` leaves its arguments to the quota parser. */
  datatype Parsed =
    | Help
    | Status(ns: Option<string>)
    | Cost(ns: Option<string>)
    | Snapshot(ns: Option<string>)
    | Quota(parts: seq<string>)
    | Run(skill: string, prompt: string)
    | Control(command: Command)
    | Rejected(why: Why)

  function Second(parts: seq<string>): Option<string> {
    if |parts| > 1 then Some(parts[1]) else None
  }

  predicate TrainingWord(s: string) {
    Lower(s) == "training" || Lower(s) == "train"
  }

  predicate AgentWord(s: string) {
    Lower(s) == "agent" || Lower(s) == "agents"
  }

  function ParseTarget(parts: seq<string>, position: nat, verb: Verb, kind: Kind, defaultNs: string): Parsed
    requires position < |parts|
  {
    var target := parts[position];
    var slash := IndexOf(target, '/');
    var ns := if slash < |target| then target[..slash] else defaultNs;
    var name := if slash < |target| then target[slash + 1..] else target;
    if ns == "" || name == "" || !DnsLabel(name) then Rejected(BadTarget)
    else
      Control(Command(verb, kind, ns, name, exists i | position < i < |parts| :: Lower(parts[i]) == "confirm"))
  }

  function ParseControl(parts: seq<string>, verb: string, defaultNs: string): Parsed
    requires parts != []
  {
    var kind := if |parts| > 1 && TrainingWord(parts[1]) then Training
                else if |parts| > 1 && AgentWord(parts[1]) then Agent else Inference;
    var position := if kind.Inference? then 1 else 2;
    if (verb == "pause" || verb == "resume" || verb == "cancel") && kind != Training then Rejected(TrainingOnly)
    else if kind.Agent? && verb != "wake" && verb != "sleep" then Rejected(NotForAgents)
    else if VerbOf(verb).None? then Rejected(UnknownVerb)
    else if |parts| <= position then Rejected(NoTarget)
    else ParseTarget(parts, position, VerbOf(verb).value, kind, defaultNs)
  }

  function ParseParts(parts: seq<string>, defaultNs: string): Parsed {
    if parts == [] then Help
    else
      var verb := Lower(parts[0]);
      if verb == "help" || verb == "?" then Help
      else if verb == "status" || verb == "list" || verb == "ls" then Status(Second(parts))
      else if verb == "cost" || verb == "expenses" || verb == "spend" then Cost(Second(parts))
      else if verb == "snapshot" || verb == "picture" then Snapshot(Second(parts))
      else if verb == "quota" then Quota(parts)
      else if verb == "run" then
        if |parts| < 3 then Rejected(RunUsage)
        else if !SkillId(parts[1]) then Rejected(BadSkill)
        else Run(parts[1], Join(parts[2..]))
      else ParseControl(parts, verb, defaultNs)
  }

  function Parse(text: string, defaultNs: string): Parsed {
    match Tokens(text)
    case None => Rejected(Unbalanced)
    case Some(parts) => ParseParts(parts, defaultNs)
  }

  /** The printer used in every reply. */
  function Canonical(c: Command): string {
    VerbName(c.verb) + (if c.kind.Training? || c.kind.Agent? then " " + KindName(c.kind) else "")
    + " " + c.ns + "/" + c.name
  }

  /** The pairs the grammar accepts. */
  predicate Spoken(kind: Kind, verb: Verb) {
    match kind
    case Inference => verb.Wake? || verb.Auto? || verb.Sleep?
    case Agent => verb.Wake? || verb.Sleep?
    case Training => true
  }

  predicate PlainTarget(c: Command) {
    Plain(c.ns) && Plain(c.name) && '/' !in c.ns
  }

  function Words(c: Command): seq<string> {
    [VerbName(c.verb)] + (if c.kind.Inference? then [] else [KindName(c.kind)]) + [c.ns + "/" + c.name]
    + (if c.confirmed then ["confirm"] else [])
  }

  function Printed(c: Command): string {
    Canonical(c) + (if c.confirmed then " confirm" else "")
  }

  lemma JoinFirst(w: string, rest: seq<string>)
    requires rest != []
    ensures Join([w] + rest) == w + " " + Join(rest)
  {
    assert ([w] + rest)[1..] == rest;
  }

  /** Regroup a printed form around its target. */
  lemma Grouped(head: string, ns: string, name: string, tail: string)
    ensures (head + " " + ns + "/" + name) + tail == head + " " + ((ns + "/" + name) + tail)
  {
  }

  lemma PrintedIsJoin(c: Command)
    ensures Printed(c) == Join(Words(c))
  {
    var v, k, target := VerbName(c.verb), KindName(c.kind), c.ns + "/" + c.name;
    var last := [target] + (if c.confirmed then ["confirm"] else []);
    var tail := if c.confirmed then " confirm" else "";
    JoinTarget(target, c.confirmed);
    if c.kind.Inference? {
      assert Words(c) == [v] + last;
      JoinFirst(v, last);
      assert v + "" == v;
      Grouped(v, c.ns, c.name, tail);
    } else {
      assert Words(c) == [v] + ([k] + last);
      JoinFirst(v, [k] + last);
      JoinFirst(k, last);
      Grouped(v + (" " + k), c.ns, c.name, tail);
      assert (v + (" " + k)) + " " + (target + tail) == v + " " + (k + " " + (target + tail));
    }
  }

  lemma JoinTarget(target: string, confirmed: bool)
    ensures Join([target] + (if confirmed then ["confirm"] else [])) == target + (if confirmed then " confirm" else "")
  {
    var tail := if confirmed then ["confirm"] else [];
    assert ([target] + tail)[1..] == tail;
    assert target + " " + "confirm" == target + " confirm";
  }

  predicate LowerWord(s: string) {
    s != "" && forall i | 0 <= i < |s| :: 'a' <= s[i] <= 'z'
  }

  lemma LowerWordIsPlain(s: string)
    requires LowerWord(s)
    ensures Lower(s) == s && Plain(s)
  {
  }

  lemma LowerNames(v: Verb, k: Kind)
    ensures Lower(VerbName(v)) == VerbName(v) && Lower(KindName(k)) == KindName(k) && Lower("confirm") == "confirm"
    ensures Plain(VerbName(v)) && Plain(KindName(k)) && Plain("confirm")
  {
    assert LowerWord(VerbName(v));
    assert LowerWord(KindName(k));
    assert LowerWord("confirm");
    LowerWordIsPlain(VerbName(v));
    LowerWordIsPlain(KindName(k));
    LowerWordIsPlain("confirm");
  }

  lemma TargetIsNoKeyword(s: string)
    requires '/' in s
    ensures !TrainingWord(s) && !AgentWord(s)
  {
    var i :| 0 <= i < |s| && s[i] == '/';
    assert Lower(s)[i] == '/';
  }

  /** What the grammar makes of a command's words. */
  function Answer(c: Command): Parsed {
    if !Spoken(c.kind, c.verb) then Rejected(if c.kind.Agent? && c.verb.Auto? then NotForAgents else TrainingOnly)
    else if DnsLabel(c.name) then Control(c) else Rejected(BadTarget)
  }

  lemma TargetOfWords(c: Command)
    requires PlainTarget(c)
    ensures var target := c.ns + "/" + c.name;
      && IndexOf(target, '/') == |c.ns| < |target| && target[..|c.ns|] == c.ns && target[|c.ns| + 1..] == c.name
      && !TrainingWord(target) && !AgentWord(target)
  {
    var target := c.ns + "/" + c.name;
    assert target == c.ns + ['/'] + c.name && target[|c.ns|] == '/';
    TargetIsNoKeyword(target);
    SplitAtFirst(c.ns, c.name, '/');
  }

  /** The verbs the grammar singles out. */
  lemma VerbWords(v: Verb)
    ensures VerbName(v) == "pause" || VerbName(v) == "resume" || VerbName(v) == "cancel"
            <==> v.Pause? || v.Resume? || v.Cancel?
    ensures VerbName(v) == "wake" || VerbName(v) == "sleep" <==> v.Wake? || v.Sleep?
  {
  }

  lemma TargetParses(c: Command, parts: seq<string>, position: nat, defaultNs: string)
    requires PlainTarget(c) && position < |parts| && parts[position] == c.ns + "/" + c.name
    requires parts[position + 1..] == if c.confirmed then ["confirm"] else []
    ensures ParseTarget(parts, position, c.verb, c.kind, defaultNs)
         == if DnsLabel(c.name) then Control(c) else Rejected(BadTarget)
  {
    TargetOfWords(c);
    assert forall i | position < i < |parts| :: parts[i] == parts[position + 1..][i - position - 1];
    LowerWordIsPlain("confirm");
    assert c.confirmed ==> Lower(parts[position + 1]) == "confirm";
  }

  lemma InferenceOfWords(c: Command, defaultNs: string)
    requires PlainTarget(c) && c.kind.Inference?
    ensures ParseControl(Words(c), VerbName(c.verb), defaultNs) == Answer(c)
  {
    TargetOfWords(c);
    VerbWords(c.verb);
    assert Words(c)[1] == c.ns + "/" + c.name;
    TargetParses(c, Words(c), 1, defaultNs);
  }

  lemma OtherOfWords(c: Command, defaultNs: string)
    requires PlainTarget(c) && !c.kind.Inference?
    ensures ParseControl(Words(c), VerbName(c.verb), defaultNs) == Answer(c)
  {
    VerbWords(c.verb);
    KindWords(c.kind);
    assert Words(c)[1] == KindName(c.kind) && Words(c)[2] == c.ns + "/" + c.name;
    TargetParses(c, Words(c), 2, defaultNs);
  }

  lemma KindWords(k: Kind)
    requires !k.Inference?
    ensures TrainingWord(KindName(k)) <==> k.Training?
    ensures AgentWord(KindName(k)) <==> k.Agent?
  {
    LowerNames(Wake, k);
    assert KindName(k)[0] == (if k.Training? then 't' else 'a');
  }

  lemma ControlOfWords(c: Command, defaultNs: string)
    requires PlainTarget(c)
    ensures ParseControl(Words(c), VerbName(c.verb), defaultNs) == Answer(c)
  {
    if c.kind.Inference? {
      InferenceOfWords(c, defaultNs);
    } else {
      OtherOfWords(c, defaultNs);
    }
  }

  lemma WordsArePlain(c: Command)
    requires PlainTarget(c)
    ensures forall i | 0 <= i < |Words(c)| :: Plain(Words(c)[i])
  {
  }

  lemma TokensOfPrinted(c: Command)
    requires PlainTarget(c)
    ensures Tokens(Printed(c)) == Some(Words(c))
  {
    WordsArePlain(c);
    PrintedIsJoin(c);
    TokensOfJoin(Words(c));
  }

  /** The first words that do not control a workload. */
  predicate Report(verb: string) {
    verb in {"help", "?", "status", "list", "ls", "cost", "expenses", "spend", "snapshot", "picture", "quota", "run"}
  }

  lemma VerbIsNoReport(v: Verb)
    ensures !Report(VerbName(v))
  {
  }

  lemma NoReport(parts: seq<string>, defaultNs: string)
    requires parts != [] && !Report(Lower(parts[0]))
    ensures ParseParts(parts, defaultNs) == ParseControl(parts, Lower(parts[0]), defaultNs)
  {
  }

  lemma VerbControls(v: Verb, parts: seq<string>, defaultNs: string)
    requires parts != [] && parts[0] == VerbName(v)
    ensures ParseParts(parts, defaultNs) == ParseControl(parts, VerbName(v), defaultNs)
  {
    LowerNames(v, Inference);
    VerbIsNoReport(v);
    NoReport(parts, defaultNs);
  }

  /** The printed form of a command parses back to that command if and only if the grammar speaks
      its pair of kind and verb and its name is a DNS label. */
  lemma RoundTripIff(c: Command, defaultNs: string)
    requires PlainTarget(c)
    ensures Parse(Printed(c), defaultNs) == Control(c) <==> Spoken(c.kind, c.verb) && DnsLabel(c.name)
    ensures Parse(Printed(c), defaultNs) == Control(c) || Parse(Printed(c), defaultNs).Rejected?
  {
    TokensOfPrinted(c);
    VerbControls(c.verb, Words(c), defaultNs);
    ControlOfWords(c, defaultNs);
  }

  /** The short form without a namespace is ambiguous: it names an inference service in the default
      namespace exactly when the name is none of the four kind words. */
  lemma ShortFormIff(verb: Verb, name: string, defaultNs: string)
    requires Spoken(Inference, verb) && DnsLabel(name) && Plain(name) && '/' !in name && defaultNs != ""
    ensures Parse(Join([VerbName(verb), name]), defaultNs) == Control(Command(verb, Inference, defaultNs, name, false))
       <==> name != "training" && name != "train" && name != "agent" && name != "agents"
  {
    var words := [VerbName(verb), name];
    LowerNames(verb, Inference);
    TokensOfJoin(words);
    VerbControls(verb, words, defaultNs);
    assert Lower(name) == name by {
      assert forall i | 0 <= i < |name| :: LowerChar(name[i]) == name[i];
    }
    assert IndexOf(name, '/') == |name|;
  }

  /** A prompt reaches the agent word by word: the text parses to its skill and prompt exactly when
      the skill is an identifier and there is a prompt. */
  lemma RunRoundTripIff(words: seq<string>, defaultNs: string)
    requires |words| > 1 && words[0] == "run" && forall i | 0 <= i < |words| :: Plain(words[i])
    ensures Parse(Join(words), defaultNs) == Run(words[1], Join(words[2..])) <==> SkillId(words[1]) && |words| > 2
    ensures Parse(Join(words), defaultNs).Run? ==> SkillId(words[1]) && |words| > 2
  {
    TokensOfJoin(words);
    RunOfParts(words, defaultNs);
  }

  lemma RunOfParts(parts: seq<string>, defaultNs: string)
    requires |parts| > 1 && parts[0] == "run"
    ensures ParseParts(parts, defaultNs)
         == if |parts| < 3 then Rejected(RunUsage)
            else if !SkillId(parts[1]) then Rejected(BadSkill)
            else Run(parts[1], Join(parts[2..]))
  {
    LowerWordIsPlain("run");
  }

  // ---------------------------------------------------------------- App Home

  datatype Button = WakeButton | AutoButton | SleepButton

  function ButtonVerb(b: Button): Verb {
    match b
    case WakeButton => Wake
    case AutoButton => Auto
    case SleepButton => Sleep
  }

  /** The buttons shown for a resource. */
  predicate Shown(b: Button, kind: Kind) {
    kind.Inference? || (kind.Agent? && !b.AutoButton?)
  }

  function ButtonValue(b: Button, kind: Kind, ns: string, name: string): string {
    var actionKind := if kind.Agent? then " agent" else "";
    var target := ns + "/" + name;
    match b
    case WakeButton => "wake" + actionKind + " " + target
    case AutoButton => "auto " + target
    case SleepButton => "sleep" + actionKind + " " + target + " confirm"
  }

  lemma ButtonIsPrinted(b: Button, kind: Kind, ns: string, name: string)
    requires Shown(b, kind)
    ensures ButtonValue(b, kind, ns, name) == Printed(Command(ButtonVerb(b), kind, ns, name, b.SleepButton?))
  {
  }

  /** Pressing a button issues the command its label names, on the resource it is shown for and
      confirmed only for Sleep, if and only if the resource name is a DNS label; a name with dots,
      which Kubernetes allows, is answered with the usage text. */
  lemma ButtonIff(b: Button, kind: Kind, ns: string, name: string, defaultNs: string)
    requires (kind.Inference? || (kind.Agent? && b != AutoButton)) && Plain(ns) && Plain(name) && '/' !in ns
    ensures Parse(ButtonValue(b, kind, ns, name), defaultNs)
            == Control(Command(ButtonVerb(b), kind, ns, name, b.SleepButton?))
       <==> DnsLabel(name)
  {
    ButtonIsPrinted(b, kind, ns, name);
    RoundTripIff(Command(ButtonVerb(b), kind, ns, name, b.SleepButton?), defaultNs);
  }

  // ---------------------------------------------------------------- from Slack to the command log

  /** What a user may type and the producer will enqueue, but no worker can ever get past: exactly
      the training commands with an inference verb, once confirmed where that is asked. */
  lemma SpokenPoisonIff(c: Command, actor: string, eventId: string, defaultNs: string)
    requires PlainTarget(c) && Spoken(c.kind, c.verb) && DnsLabel(c.name)
    requires actor != "" && |eventId| == EVENT_ID_LENGTH
    ensures Parse(Printed(c), defaultNs) == Control(c)
    ensures (Enqueueable(c, actor, eventId)
             && Delivery.Poison(Accepted(Order(c, Truncate(actor, ACTOR_LIMIT), eventId))))
       <==> c.kind.Training? && (c.verb.Wake? || c.verb.Auto? || (c.verb.Sleep? && c.confirmed))
  {
    RoundTripIff(c, defaultNs);
  }
}
