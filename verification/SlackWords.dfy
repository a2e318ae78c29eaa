/** The words of a command as people write them: capitals, aliases and further words; which names
    pass; and what a typed command ends up writing to the object it names. */
module SlackWords {
  import opened JsonMerge
  import opened Commands
  import opened SlackGrammar

  // ---------------------------------------------------------------- names

  const LETTERS := "abcdefghijklmnopqrstuvwxyz"
  const DIGITS := "0123456789"

  lemma Letters(c: char)
    ensures 'a' <= c <= 'z' <==> c in LETTERS
  {
    if 'a' <= c <= 'z' {
      assert LETTERS[c as int - 'a' as int] == c;
    }
  }

  lemma LabelAlphabet(c: char)
    ensures LabelChar(c) <==> c in LETTERS || c in DIGITS
  {
    Letters(c);
    if '0' <= c <= '9' {
      assert DIGITS[c as int - '0' as int] == c;
    }
  }

  /** A resource name is one DNS label: small letters, digits and inner dashes. */
  lemma DnsLabelIff(s: string)
    ensures DnsLabel(s) <==>
      s != "" && s[0] != '-' && s[|s| - 1] != '-' && forall c | c in s :: c in LETTERS || c in DIGITS || c == '-'
  {
    forall c ensures LabelChar(c) <==> c in LETTERS || c in DIGITS {
      LabelAlphabet(c);
    }
    assert !LabelChar('-');
  }

  /** A skill is a small letter or digit, then letters, digits, dots, underscores and dashes. */
  lemma SkillIdIff(s: string)
    ensures SkillId(s) <==>
      && s != "" && (s[0] in LETTERS || s[0] in DIGITS)
      && forall c | c in s :: c in LETTERS || c in DIGITS || c in "._-"
  {
    forall c ensures LabelChar(c) <==> c in LETTERS || c in DIGITS {
      LabelAlphabet(c);
    }
  }

  // ---------------------------------------------------------------- spellings

  /** `w` is `word` with any of its letters written as a capital. */
  predicate Spells(w: string, word: string) {
    && |w| == |word|
    && forall i | 0 <= i < |w| :: w[i] == word[i] || (w[i] < 'a' && w[i] as int + 32 == word[i] as int)
  }

  lemma SpellsIff(w: string, word: string)
    requires LowerWord(word)
    ensures Lower(w) == word <==> Spells(w, word)
    ensures Spells(w, word) ==> Plain(w)
  {
    if Lower(w) == word {
      assert forall i | 0 <= i < |w| :: Lower(w)[i] == LowerChar(w[i]);
    }
    if Spells(w, word) {
      forall i | 0 <= i < |w| ensures LowerChar(w[i]) == word[i] && 'A' <= w[i] <= 'z' {
      }
    }
  }

  predicate SpellsVerb(w: string, v: Verb) {
    match v
    case Wake => Spells(w, "wake")
    case Auto => Spells(w, "auto")
    case Sleep => Spells(w, "sleep")
    case Pause => Spells(w, "pause")
    case Resume => Spells(w, "resume")
    case Cancel => Spells(w, "cancel")
  }

  /** The words before the target: none for an inference service. */
  predicate SpellsKind(words: seq<string>, k: Kind) {
    match k
    case Inference => words == []
    case Training => |words| == 1 && (Spells(words[0], "training") || Spells(words[0], "train"))
    case Agent => |words| == 1 && (Spells(words[0], "agent") || Spells(words[0], "agents"))
  }

  /** The words after the target confirm if one of them is "confirm". */
  ghost predicate SpellsConfirmation(words: seq<string>, confirmed: bool) {
    confirmed <==> exists i | 0 <= i < |words| :: Spells(words[i], "confirm")
  }

  lemma VerbSpelled(w: string, v: Verb)
    requires SpellsVerb(w, v)
    ensures Lower(w) == VerbName(v) && Plain(w)
  {
    LowerNames(v, Inference);
    assert LowerWord(VerbName(v));
    SpellsIff(w, VerbName(v));
  }

  lemma KindSpelled(words: seq<string>, k: Kind)
    requires SpellsKind(words, k)
    ensures k.Training? ==> Plain(words[0]) && TrainingWord(words[0]) && !AgentWord(words[0])
    ensures k.Agent? ==> Plain(words[0]) && AgentWord(words[0]) && !TrainingWord(words[0])
  {
    if !k.Inference? {
      SpellsIff(words[0], "training");
      SpellsIff(words[0], "train");
      SpellsIff(words[0], "agent");
      SpellsIff(words[0], "agents");
    }
  }

  lemma Confirmed(c: Command, parts: seq<string>, position: nat, tail: seq<string>, defaultNs: string)
    requires PlainTarget(c) && position < |parts| && parts[position] == c.ns + "/" + c.name
    requires parts[position + 1..] == tail && SpellsConfirmation(tail, c.confirmed)
    ensures ParseTarget(parts, position, c.verb, c.kind, defaultNs)
         == if DnsLabel(c.name) then Control(c) else Rejected(BadTarget)
  {
    TargetOfWords(c);
    assert LowerWord("confirm");
    forall i | position < i < |parts|
      ensures Lower(parts[i]) == "confirm" <==> Spells(tail[i - position - 1], "confirm")
    {
      assert parts[i] == tail[i - position - 1];
      SpellsIff(parts[i], "confirm");
    }
    if c.confirmed {
      var i :| 0 <= i < |tail| && Spells(tail[i], "confirm");
      assert tail[i] == parts[position + 1 + i];
      assert Lower(parts[position + 1 + i]) == "confirm";
    }
  }

  /** The words of a command, in the order they are written. */
  function Typed(verb: string, kind: seq<string>, target: string, tail: seq<string>): seq<string> {
    [verb] + kind + [target] + tail
  }

  lemma TypedIsControl(parts: seq<string>, v: Verb, defaultNs: string)
    requires parts != [] && SpellsVerb(parts[0], v)
    ensures ParseParts(parts, defaultNs) == ParseControl(parts, VerbName(v), defaultNs)
  {
    VerbSpelled(parts[0], v);
    VerbIsNoReport(v);
    NoReport(parts, defaultNs);
  }

  lemma TypedInference(c: Command, parts: seq<string>, tail: seq<string>, defaultNs: string)
    requires PlainTarget(c) && c.kind.Inference? && SpellsConfirmation(tail, c.confirmed)
    requires |parts| > 1 && parts[1] == c.ns + "/" + c.name && parts[2..] == tail
    ensures ParseControl(parts, VerbName(c.verb), defaultNs) == Answer(c)
  {
    VerbWords(c.verb);
    TargetOfWords(c);
    Confirmed(c, parts, 1, tail, defaultNs);
  }

  lemma TypedOther(c: Command, parts: seq<string>, tail: seq<string>, defaultNs: string)
    requires PlainTarget(c) && !c.kind.Inference? && SpellsConfirmation(tail, c.confirmed)
    requires |parts| > 2 && parts[2] == c.ns + "/" + c.name && parts[3..] == tail
    requires (TrainingWord(parts[1]) <==> c.kind.Training?) && (AgentWord(parts[1]) <==> c.kind.Agent?)
    ensures ParseControl(parts, VerbName(c.verb), defaultNs) == Answer(c)
  {
    VerbWords(c.verb);
    Confirmed(c, parts, 2, tail, defaultNs);
  }

  lemma TypedControls(c: Command, verb: string, kind: seq<string>, tail: seq<string>, defaultNs: string)
    requires PlainTarget(c) && SpellsVerb(verb, c.verb) && SpellsKind(kind, c.kind)
    requires SpellsConfirmation(tail, c.confirmed)
    ensures ParseParts(Typed(verb, kind, c.ns + "/" + c.name, tail), defaultNs) == Answer(c)
  {
    var parts := Typed(verb, kind, c.ns + "/" + c.name, tail);
    TypedIsControl(parts, c.verb, defaultNs);
    if c.kind.Inference? {
      assert parts[2..] == tail;
      TypedInference(c, parts, tail, defaultNs);
    } else {
      KindSpelled(kind, c.kind);
      assert parts[1] == kind[0] && parts[3..] == tail;
      TypedOther(c, parts, tail, defaultNs);
    }
  }

  /** Commands as people write them: in capitals or not, with either word for the kind, and with any
      words after the target, of which "confirm" confirms. They parse to the command exactly when the
      grammar speaks its pair of kind and verb and the name is a DNS label; else they are refused. */
  lemma TypedIff(c: Command, verb: string, kind: seq<string>, tail: seq<string>, defaultNs: string)
    requires PlainTarget(c) && SpellsVerb(verb, c.verb) && SpellsKind(kind, c.kind)
    requires SpellsConfirmation(tail, c.confirmed) && forall i | 0 <= i < |tail| :: Plain(tail[i])
    ensures var parsed := Parse(Join(Typed(verb, kind, c.ns + "/" + c.name, tail)), defaultNs);
      && (parsed == Control(c) <==> Spoken(c.kind, c.verb) && DnsLabel(c.name))
      && (parsed == Control(c) || parsed.Rejected?)
  {
    VerbSpelled(verb, c.verb);
    KindSpelled(kind, c.kind);
    TokensOfJoin(Typed(verb, kind, c.ns + "/" + c.name, tail));
    TypedControls(c, verb, kind, tail, defaultNs);
  }

  // ---------------------------------------------------------------- reports

  function Given(words: seq<string>): Option<string> {
    if |words| < 2 then None else Some(words[1])
  }

  lemma QuestionMark(w: string)
    ensures Lower(w) == "?" <==> w == "?"
  {
    if Lower(w) == "?" {
      assert LowerChar(w[0]) == Lower(w)[0];
    }
  }

  lemma HelpOfParts(parts: seq<string>, defaultNs: string)
    requires parts != []
    ensures ParseParts(parts, defaultNs) == Help <==> Lower(parts[0]) == "help" || Lower(parts[0]) == "?"
  {
  }

  lemma StatusOfParts(parts: seq<string>, defaultNs: string)
    requires parts != [] && (Lower(parts[0]) == "status" || Lower(parts[0]) == "list" || Lower(parts[0]) == "ls")
    ensures ParseParts(parts, defaultNs) == Status(Given(parts))
  {
  }

  lemma CostOfParts(parts: seq<string>, defaultNs: string)
    requires parts != [] && (Lower(parts[0]) == "cost" || Lower(parts[0]) == "expenses" || Lower(parts[0]) == "spend")
    ensures ParseParts(parts, defaultNs) == Cost(Given(parts))
  {
  }

  lemma SnapshotOfParts(parts: seq<string>, defaultNs: string)
    requires parts != [] && (Lower(parts[0]) == "snapshot" || Lower(parts[0]) == "picture")
    ensures ParseParts(parts, defaultNs) == Snapshot(Given(parts))
  {
  }

  lemma AskedFor(w: string, word: string)
    requires LowerWord(word)
    ensures Spells(w, word) <==> Lower(w) == word
  {
    SpellsIff(w, word);
  }

  lemma ParsesTo(words: seq<string>, defaultNs: string, parsed: Parsed)
    requires words != [] && (forall i | 0 <= i < |words| :: Plain(words[i])) && ParseParts(words, defaultNs) == parsed
    ensures Parse(Join(words), defaultNs) == parsed
  {
    TokensOfJoin(words);
  }

  lemma StatusAsked(w: string)
    requires Spells(w, "status") || Spells(w, "list") || Spells(w, "ls")
    ensures Lower(w) == "status" || Lower(w) == "list" || Lower(w) == "ls"
  {
    AskedFor(w, "status");
    AskedFor(w, "list");
    AskedFor(w, "ls");
  }

  lemma CostAsked(w: string)
    requires Spells(w, "cost") || Spells(w, "expenses") || Spells(w, "spend")
    ensures Lower(w) == "cost" || Lower(w) == "expenses" || Lower(w) == "spend"
  {
    AskedFor(w, "cost");
    AskedFor(w, "expenses");
    AskedFor(w, "spend");
  }

  lemma SnapshotAsked(w: string)
    requires Spells(w, "snapshot") || Spells(w, "picture")
    ensures Lower(w) == "snapshot" || Lower(w) == "picture"
  {
    AskedFor(w, "snapshot");
    AskedFor(w, "picture");
  }

  lemma HelpAsked(w: string)
    ensures Lower(w) == "help" || Lower(w) == "?" <==> Spells(w, "help") || w == "?"
  {
    AskedFor(w, "help");
    QuestionMark(w);
  }

  /** Help is what "help" and the question mark ask for, and what an empty text gets. */
  lemma HelpIff(words: seq<string>, defaultNs: string)
    requires words != [] && forall i | 0 <= i < |words| :: Plain(words[i])
    ensures Parse(Join(words), defaultNs) == Help <==> Spells(words[0], "help") || words[0] == "?"
    ensures Parse("", defaultNs) == Help
  {
    HelpAsked(words[0]);
    HelpOfParts(words, defaultNs);
    ParsesTo(words, defaultNs, ParseParts(words, defaultNs));
  }

  /** The reports, in each of their words; the word after it is the namespace they are about. */
  lemma StatusWords(words: seq<string>, defaultNs: string)
    requires words != [] && (forall i | 0 <= i < |words| :: Plain(words[i]))
    requires Spells(words[0], "status") || Spells(words[0], "list") || Spells(words[0], "ls")
    ensures Parse(Join(words), defaultNs) == Status(Given(words))
  {
    StatusAsked(words[0]);
    StatusOfParts(words, defaultNs);
    ParsesTo(words, defaultNs, Status(Given(words)));
  }

  lemma CostWords(words: seq<string>, defaultNs: string)
    requires words != [] && (forall i | 0 <= i < |words| :: Plain(words[i]))
    requires Spells(words[0], "cost") || Spells(words[0], "expenses") || Spells(words[0], "spend")
    ensures Parse(Join(words), defaultNs) == Cost(Given(words))
  {
    CostAsked(words[0]);
    CostOfParts(words, defaultNs);
    ParsesTo(words, defaultNs, Cost(Given(words)));
  }

  lemma SnapshotWords(words: seq<string>, defaultNs: string)
    requires words != [] && (forall i | 0 <= i < |words| :: Plain(words[i]))
    requires Spells(words[0], "snapshot") || Spells(words[0], "picture")
    ensures Parse(Join(words), defaultNs) == Snapshot(Given(words))
  {
    SnapshotAsked(words[0]);
    SnapshotOfParts(words, defaultNs);
    ParsesTo(words, defaultNs, Snapshot(Given(words)));
  }

  // ---------------------------------------------------------------- what a typed command does

  datatype Setting = To(value: bool) | Kept

  /** The words before the target, what they name, and what becomes of the fields. */
  datatype Row = Row(text: string, verb: Verb, kind: Kind, suspend: Setting, forceActive: Setting, cancelled: Setting)

  const TABLE := [
    Row("wake", Wake, Inference, To(false), To(true), Kept),
    Row("auto", Auto, Inference, To(false), To(false), Kept),
    Row("sleep", Sleep, Inference, To(true), To(false), Kept),
    Row("wake agent", Wake, Agent, To(false), Kept, Kept),
    Row("sleep agent", Sleep, Agent, To(true), Kept, Kept),
    Row("pause training", Pause, Training, To(true), Kept, Kept),
    Row("resume training", Resume, Training, To(false), Kept, Kept),
    Row("cancel training", Cancel, Training, Kept, Kept, To(true))]

  function SetTo(setting: Setting, before: Option<Json>): Option<Json> {
    match setting
    case To(b) => Some(Bool(b))
    case Kept => before
  }

  predicate Sets(row: Row, before: Json, after: Json) {
    && Lookup(after, ["spec", "suspend"]) == SetTo(row.suspend, Lookup(before, ["spec", "suspend"]))
    && Lookup(after, ["spec", "forceActive"]) == SetTo(row.forceActive, Lookup(before, ["spec", "forceActive"]))
    && Lookup(after, ["spec", "cancelled"]) == SetTo(row.cancelled, Lookup(before, ["spec", "cancelled"]))
  }

  lemma RowActs(row: Row, i: Intent, o: Order)
    requires row in TABLE && o.command.verb == row.verb && o.command.kind == row.kind
    ensures Handled(o.command) && Spoken(row.kind, row.verb)
    ensures Act(i, o).suspend == SetTo(row.suspend, i.suspend)
    ensures Act(i, o).forceActive == SetTo(row.forceActive, i.forceActive)
    ensures Act(i, o).cancelled == SetTo(row.cancelled, i.cancelled)
  {
  }

  lemma RowText(row: Row)
    requires row in TABLE
    ensures row.text == VerbName(row.verb) + (if row.kind.Inference? then "" else " " + KindName(row.kind))
  {
  }

  lemma RowPrints(row: Row, c: Command)
    requires row in TABLE && c.verb == row.verb && c.kind == row.kind && !c.confirmed
    ensures Printed(c) == row.text + " " + c.ns + "/" + c.name
  {
    RowText(row);
  }

  /** The command table from the typed words to the fields of the object: each line of it, for every
      resource with a DNS label as its name, sets what it says and keeps the rest, whatever the
      object held before. */
  lemma TypedActs(row: Row, ns: string, name: string, defaultNs: string, stored: Json, actor: string, eventId: string,
                  now: string)
    requires row in TABLE && Plain(ns) && Plain(name) && '/' !in ns && DnsLabel(name)
    ensures var c := Command(row.verb, row.kind, ns, name, false);
      && Parse(row.text + " " + ns + "/" + name, defaultNs) == Control(c) && Target(c) == Resource(row.kind, ns, name)
      && Handled(c) && Sets(row, stored, MergePatch(stored, PatchBody(Order(c, actor, eventId), now)))
  {
    var c := Command(row.verb, row.kind, ns, name, false);
    var o := Order(c, actor, eventId);
    RowActs(row, IntentOf(stored), o);
    RowPrints(row, c);
    RoundTripIff(c, defaultNs);
    PatchActs(stored, o, now);
  }
}
