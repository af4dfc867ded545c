/** The terminal's command interpreter, `runCmd` in frontend/dashboard.js.

    A submitted line is split on whitespace runs; the first token,
    lower-cased, picks a branch of a fixed chain of tests; each branch appends
    lines to the transcript and may ask the page for a side effect (activate a
    tab, open a URL, post a prompt to the AI endpoint). Here one submission is
    a function from the line, the session data the page has loaded and the AI
    endpoint's answer to the ordered list of those events. */
module Commands {
  import opened Wrappers
  import opened Text
  import opened Links

  // ---------------------------------------------------------------------
  // Session data read by the commands

  datatype Project = Project(name: string, description: Option<string>, url: Option<string>)

  datatype Skill = Skill(name: string, category: Option<string>)

  datatype Bio = Bio(
    name: Option<string>,
    tagline: Option<string>,
    location: Option<string>,
    about: Option<string>,
    skills: Option<seq<Skill>>)

  /** What the page has loaded: `window._projects`, `window._bio` and
      `window._linkMap`, each absent until its load succeeds. */
  datatype Session = Session(
    projects: Option<seq<Project>>,
    bio: Option<Bio>,
    links: Option<map<string, Link>>)

  /** What the AI endpoint's round trip produced: a JSON payload with
      optional `reply` and `error` fields, or a thrown error. */
  datatype AiResponse =
    | Payload(reply: Option<string>, error: Option<string>)
    | ConnectionError(message: string)

  /** One observable step of a command: a transcript line, wiping the
      transcript, or a request to the page. */
  datatype Event =
    | Line(text: string)
    | ClearScreen
    | ActivateTab(tab: string)
    | OpenUrl(url: string)
    | PostPrompt(prompt: string)

  /** `field || fallback` for a string field: a missing or empty field gives
      the fallback. */
  function Or(field: Option<string>, fallback: string): string
  {
    if field.Some? && field.value != "" then field.value else fallback
  }

  function Lines(texts: seq<string>): (evs: seq<Event>)
    ensures |evs| == |texts|
    ensures forall i :: 0 <= i < |texts| ==> evs[i] == Line(texts[i])
  {
    seq(|texts|, i requires 0 <= i < |texts| => Line(texts[i]))
  }

  lemma LinesAreLines(texts: seq<string>)
    ensures ClearScreen !in Lines(texts)
  {
    var evs := Lines(texts);
    assert forall k :: 0 <= k < |evs| ==> evs[k] != ClearScreen;
  }

  // ---------------------------------------------------------------------
  // Fixed texts

  const HelpText: string :=
    "Available commands:\n"
    + "  help, ?              - Show this help message\n"
    + "  clear, cls           - Clear terminal\n"
    + "  open <name>          - Open a link by name\n"
    + "  projects             - List all projects\n"
    + "  skills               - Show skills overview\n"
    + "  about                - Show about information\n"
    + "  portfolio            - Show portfolio overview\n"
    + "  version, ver         - Show system version\n"
    + "  ai <question>        - Chat with Greanium AI\n"
    + "  tab <name>           - Switch to tab (dashboard/portfolio/projects/about)"

  const VersionLine: string := "Greanium OS v1.2"
  const AuthorLine: string := "Created by Cormac Greaney \U{00A9} 2025"

  const ValidTabs: seq<string> := ["dashboard", "portfolio", "projects", "about"]

  function UnknownLine(name: string): string
  {
    "Unknown command: " + name + ". Type 'help' for available commands."
  }

  /** Every name the dispatcher recognises (`tab` and `open` only with an
      argument). */
  const KnownNames: set<string> :=
    {"help", "?", "clear", "cls", "version", "ver", "tab", "projects",
     "skills", "about", "portfolio", "ai", "open"}

  // ---------------------------------------------------------------------
  // `tab`

  function TabEvents(tabName: string): seq<Event>
  {
    if tabName in ValidTabs then
      [ActivateTab(tabName), Line("Switched to " + tabName + " tab.")]
    else
      [Line("Invalid tab. Available: " + Join(ValidTabs, ", "))]
  }

  // ---------------------------------------------------------------------
  // `projects`

  predicate HasUrl(p: Project) {
    p.url.Some? && p.url.value != ""
  }

  function ProjectHeader(p: Project, number: nat): string
  {
    "  " + NatToString(number) + ". " + p.name + " - " + Or(p.description, "No description")
  }

  /** The lines for the project numbered `number`: its header, then its URL
      when it has one. */
  function ProjectEntry(p: Project, number: nat): seq<string>
  {
    [ProjectHeader(p, number)] + (if HasUrl(p) then ["     URL: " + p.url.value] else [])
  }

  /** Number of projects with a URL. */
  function UrlCount(ps: seq<Project>): (n: nat)
    ensures n <= |ps|
  {
    if ps == [] then 0 else UrlCount(ps[..|ps| - 1]) + (if HasUrl(ps[|ps| - 1]) then 1 else 0)
  }

  /** The lines of the `forEach` over the projects, numbered from 1. */
  function ProjectLines(ps: seq<Project>): (lines: seq<string>)
    ensures |lines| == |ps| + UrlCount(ps)
  {
    if ps == [] then [] else ProjectLines(ps[..|ps| - 1]) + ProjectEntry(ps[|ps| - 1], |ps|)
  }

  function ProjectsOutput(projects: Option<seq<Project>>): seq<string>
  {
    if projects.Some? && |projects.value| > 0 then
      ["Found " + NatToString(|projects.value|) + " project(s):"] + ProjectLines(projects.value)
    else
      ["No projects available."]
  }

  /** Project i (counting from 0) is listed as number i + 1, after the i
      earlier headers and the URL lines of the earlier projects: the list is
      numbered 1..N in order. */
  lemma {:induction false} ProjectLinesNumbered(ps: seq<Project>, i: nat)
    requires i < |ps|
    ensures i + UrlCount(ps[..i]) < |ProjectLines(ps)|
    ensures ProjectLines(ps)[i + UrlCount(ps[..i])] == ProjectHeader(ps[i], i + 1)
    ensures HasUrl(ps[i]) ==>
      i + UrlCount(ps[..i]) + 1 < |ProjectLines(ps)|
      && ProjectLines(ps)[i + UrlCount(ps[..i]) + 1] == "     URL: " + ps[i].url.value
    decreases |ps|
  {
    var n := |ps|;
    var init := ps[..n - 1];
    var before := ProjectLines(init);
    var entry := ProjectEntry(ps[n - 1], n);
    assert ProjectLines(ps) == before + entry;
    if i < n - 1 {
      assert init[..i] == ps[..i];
      ProjectLinesNumbered(init, i);
      IndexLeft(before, entry, i + UrlCount(ps[..i]));
    } else {
      assert ps[..i] == init;
    }
  }

  /** Indexing into the left part of a concatenation. */
  lemma IndexLeft(a: seq<string>, b: seq<string>, k: nat)
    requires k < |a|
    ensures (a + b)[k] == a[k]
  {
  }

  // ---------------------------------------------------------------------
  // `skills`

  /** `skill.category || 'Other'`. */
  function Category(k: Skill): string
  {
    Or(k.category, "Other")
  }

  /** The categories in order of first appearance, each once: the keys of
      `byCategory` in insertion order. */
  function Categories(skills: seq<Skill>): (cats: seq<string>)
  {
    if skills == [] then []
    else
      var prev := Categories(skills[..|skills| - 1]);
      var c := Category(skills[|skills| - 1]);
      if c in prev then prev else prev + [c]
  }

  /** Each category is listed once, every skill's category is listed, and
      only categories some skill has. */
  lemma {:induction false} CategoriesListed(skills: seq<Skill>)
    ensures var cats := Categories(skills);
      (forall i, j :: 0 <= i < j < |cats| ==> cats[i] != cats[j])
      && (forall k :: 0 <= k < |skills| ==> Category(skills[k]) in cats)
      && (forall c :: c in cats ==> InSomeSkill(skills, c))
  {
    if skills != [] {
      var init := skills[..|skills| - 1];
      CategoriesListed(init);
      var prev := Categories(init);
      var cats := Categories(skills);
      assert forall k :: 0 <= k < |init| ==> skills[k] == init[k];
      forall c | c in cats ensures InSomeSkill(skills, c) {
        if c in prev {
          var k :| 0 <= k < |init| && Category(init[k]) == c;
          assert skills[k] == init[k];
        } else {
          assert Category(skills[|skills| - 1]) == c;
        }
      }
    }
  }

  predicate InSomeSkill(skills: seq<Skill>, c: string) {
    exists k :: 0 <= k < |skills| && Category(skills[k]) == c
  }

  /** The names of the skills in category `c`, in input order. */
  function NamesIn(skills: seq<Skill>, c: string): seq<string>
  {
    if skills == [] then []
    else
      var last := skills[|skills| - 1];
      NamesIn(skills[..|skills| - 1], c) + (if Category(last) == c then [last.name] else [])
  }

  datatype Group = Group(category: string, names: seq<string>)

  /** The grouping of skills by category that `renderSkills` and the
      `skills` command compute. */
  function Grouping(skills: seq<Skill>): seq<Group>
  {
    var cats := Categories(skills);
    seq(|cats|, i requires 0 <= i < |cats| => Group(cats[i], NamesIn(skills, cats[i])))
  }

  /** A category that does not occur has no names. */
  lemma {:induction false} NamesInAbsent(skills: seq<Skill>, c: string)
    requires c !in Categories(skills)
    ensures NamesIn(skills, c) == []
  {
    if skills != [] {
      var init := skills[..|skills| - 1];
      assert Categories(init) <= Categories(skills);
      NamesInAbsent(init, c);
    }
  }

  /** `byCategory` after the `forEach` over `skills`: a new category gets an
      empty list, then the skill's name is appended to its category's list. */
  function GroupMap(skills: seq<Skill>): map<string, seq<string>>
  {
    if skills == [] then map[]
    else
      var m := GroupMap(skills[..|skills| - 1]);
      var last := skills[|skills| - 1];
      var c := Category(last);
      m[c := (if c in m then m[c] else []) + [last.name]]
  }

  /** The keys of `byCategory` are the categories that occur, and each holds
      the names of its skills in input order. */
  lemma {:induction false} GroupMapContents(skills: seq<Skill>)
    ensures forall c :: c in GroupMap(skills) <==> c in Categories(skills)
    ensures forall c :: c in GroupMap(skills) ==> GroupMap(skills)[c] == NamesIn(skills, c)
  {
    if skills != [] {
      var init := skills[..|skills| - 1];
      GroupMapContents(init);
      var c := Category(skills[|skills| - 1]);
      if c !in GroupMap(init) {
        NamesInAbsent(init, c);
      }
    }
  }

  lemma GroupMapAt(skills: seq<Skill>, c: string)
    ensures c in GroupMap(skills) <==> c in Categories(skills)
    ensures c in GroupMap(skills) ==> GroupMap(skills)[c] == NamesIn(skills, c)
  {
    GroupMapContents(skills);
  }

  /** The `forEach` that fills `byCategory`, then the walk over its keys. */
  method GroupSkills(skills: seq<Skill>) returns (groups: seq<Group>)
    ensures groups == Grouping(skills)
  {
    var order: seq<string> := [];
    var byCategory: map<string, seq<string>> := map[];
    var i := 0;
    while i < |skills|
      invariant 0 <= i <= |skills|
      invariant order == Categories(skills[..i]) && byCategory == GroupMap(skills[..i])
    {
      var skill := skills[i];
      var cat := Or(skill.category, "Other");
      GroupMapAt(skills[..i], cat);
      var names: seq<string> := [];
      if cat in byCategory {
        names := byCategory[cat];
      } else {
        order := order + [cat];
      }
      byCategory := byCategory[cat := names + [skill.name]];
      assert skills[..i + 1][..i] == skills[..i];
      i := i + 1;
    }
    assert skills[..i] == skills;
    groups := [];
    var j := 0;
    while j < |order|
      invariant 0 <= j <= |order|
      invariant |groups| == j
      invariant forall k :: 0 <= k < j ==> groups[k] == Group(order[k], NamesIn(skills, order[k]))
    {
      GroupMapAt(skills, order[j]);
      groups := groups + [Group(order[j], byCategory[order[j]])];
      j := j + 1;
    }
  }

  /** Two lines per category: its name, then its skills joined by commas. */
  function SkillsLines(groups: seq<Group>): (lines: seq<string>)
    ensures |lines| == 2 * |groups|
    ensures forall i :: 0 <= i < |groups| ==>
      lines[2 * i] == groups[i].category + ":" && lines[2 * i + 1] == "  " + Join(groups[i].names, ", ")
  {
    if groups == [] then []
    else [groups[0].category + ":", "  " + Join(groups[0].names, ", ")] + SkillsLines(groups[1..])
  }

  function SkillsOutput(bio: Option<Bio>): seq<string>
  {
    if bio.Some? && bio.value.skills.Some? then SkillsLines(Grouping(bio.value.skills.value))
    else ["Skills data not available."]
  }

  // ---------------------------------------------------------------------
  // `about`

  function AboutLines(bio: Option<Bio>): seq<string>
  {
    match bio
    case Some(b) =>
      [ "Name: " + Or(b.name, "Cormac Greaney"),
        "Tagline: " + Or(b.tagline, "Developer & Creator"),
        "Location: " + Or(b.location, "Not specified"),
        "About: " + Or(b.about, "No description available.") ]
    case None => ["About information not available."]
  }

  // ---------------------------------------------------------------------
  // `ai`

  /** `reply.split('\n')`, an empty piece shown as a single space. */
  function ReplyLines(reply: string): seq<string>
  {
    var pieces := SplitAt(reply, '\n');
    seq(|pieces|, i requires 0 <= i < |pieces| => if pieces[i] == "" then " " else pieces[i])
  }

  function NewlineCount(s: string): nat
  {
    if s == [] then 0 else NewlineCount(s[1..]) + (if s[0] == '\n' then 1 else 0)
  }

  lemma {:induction false} NewlineCountAppend(a: string, b: string)
    ensures NewlineCount(a + b) == NewlineCount(a) + NewlineCount(b)
  {
    if a != [] {
      assert (a + b)[1..] == a[1..] + b;
      NewlineCountAppend(a[1..], b);
    } else {
      assert a + b == b;
    }
  }

  lemma {:induction false} NewlineCountNone(s: string)
    requires '\n' !in s
    ensures NewlineCount(s) == 0
  {
    if s != [] {
      NewlineCountNone(s[1..]);
    }
  }

  /** A reply with n line breaks shows as n + 1 non-empty transcript lines,
      none containing a line break, each the corresponding piece of the reply
      (an empty piece kept as a blank line), and the pieces rejoined with line
      breaks are the reply. */
  lemma ReplyLinesFaithful(reply: string)
    ensures var lines := ReplyLines(reply); var pieces := SplitAt(reply, '\n');
      && |lines| == NewlineCount(reply) + 1
      && Join(pieces, "\n") == reply
      && forall i :: 0 <= i < |lines| ==>
           lines[i] != "" && '\n' !in lines[i]
           && (lines[i] == pieces[i] || (pieces[i] == "" && lines[i] == " "))
  {
    JoinSplitAt(reply, '\n');
    PieceCount(reply);
  }

  /** n line breaks cut the reply into n + 1 pieces. */
  lemma {:induction false} PieceCount(reply: string)
    ensures |SplitAt(reply, '\n')| == NewlineCount(reply) + 1
    decreases |reply|
  {
    var i := IndexOf(reply, '\n');
    if i == |reply| {
      NewlineCountNone(reply);
    } else {
      PieceCount(reply[i + 1..]);
      assert reply == reply[..i] + ([reply[i]] + reply[i + 1..]);
      NewlineCountAppend(reply[..i], [reply[i]] + reply[i + 1..]);
      NewlineCountAppend([reply[i]], reply[i + 1..]);
      NewlineCountNone(reply[..i]);
    }
  }

  /** The lines that follow "Thinking..." once the request settles. */
  function AiResult(ai: AiResponse): seq<string>
  {
    match ai
    case ConnectionError(m) => ["AI connection error: " + m]
    case Payload(reply, err) =>
      if reply.Some? && reply.value != "" then ReplyLines(reply.value)
      else ["AI error: " + Or(err, "Unknown error")]
  }

  function AiEvents(query: string, ai: AiResponse): seq<Event>
  {
    if query == "" then [Line("Usage: ai <your question>")]
    else [Line("Thinking..."), PostPrompt(query)] + Lines(AiResult(ai))
  }

  // ---------------------------------------------------------------------
  // `open`

  function OpenEvents(rest: string, links: Option<map<string, Link>>): seq<Event>
  {
    var key := Slug(rest);
    if links.Some? && key in links.value then
      [OpenUrl(links.value[key].url), Line("Opened link: " + rest)]
    else
      [Line("No link matched: " + rest)]
  }

  // ---------------------------------------------------------------------
  // Dispatch

  /** `cmd.split(/\s+/)`. */
  function Tokens(cmd: string): (parts: seq<string>)
    ensures |parts| >= 1
  {
    SplitOnSpace(cmd)
  }

  /** `parts[0].toLowerCase()`. */
  function Name(parts: seq<string>): string
    requires |parts| >= 1
  {
    LowerStr(parts[0])
  }

  /** `parts[1]` is truthy. */
  predicate HasArg(parts: seq<string>) {
    |parts| >= 2 && parts[1] != ""
  }

  /** `parts.slice(1).join(' ')`. */
  function Arg(parts: seq<string>): string
    requires |parts| >= 1
  {
    Join(parts[1..], " ")
  }

  /** The chain of tests after the echo line, in source order, on the
      tokens of the command line. */
  function Dispatch(parts: seq<string>, s: Session, ai: AiResponse): seq<Event>
    requires |parts| >= 1
  {
    var name := Name(parts);
    if name == "help" || name == "?" then [Line(HelpText)]
    else if name == "clear" || name == "cls" then [ClearScreen]
    else if name == "version" || name == "ver" then [Line(VersionLine), Line(AuthorLine)]
    else if name == "tab" && HasArg(parts) then TabEvents(LowerStr(parts[1]))
    else if name == "projects" then Lines(ProjectsOutput(s.projects))
    else if name == "skills" then Lines(SkillsOutput(s.bio))
    else if name == "about" then Lines(AboutLines(s.bio))
    else if name == "portfolio" then [ActivateTab("portfolio"), Line("Opening portfolio overview...")]
    else if name == "ai" then AiEvents(Arg(parts), ai)
    else if name == "open" && HasArg(parts) then OpenEvents(Arg(parts), s.links)
    else [Line(UnknownLine(name))]
  }

  /** `runCmd(cmd)`: nothing for the empty line; otherwise the echo line
      first, then the dispatched command's events. */
  function RunCmd(cmd: string, s: Session, ai: AiResponse): (evs: seq<Event>)
    ensures cmd == "" <==> evs == []
    ensures cmd != "" ==> evs[0] == Line("> " + cmd)
  {
    if cmd == "" then [] else [Line("> " + cmd)] + Dispatch(Tokens(cmd), s, ai)
  }

  /** A non-empty line gives its echo followed by what the chain
      produces for its tokens. */
  lemma EchoThen(cmd: string, s: Session, ai: AiResponse, tail: seq<Event>)
    requires cmd != "" && Dispatch(Tokens(cmd), s, ai) == tail
    ensures RunCmd(cmd, s, ai) == [Line("> " + cmd)] + tail
  {
  }

  // One lemma per branch of the chain.

  lemma DispatchHelp(parts: seq<string>, s: Session, ai: AiResponse)
    requires |parts| >= 1 && Name(parts) in {"help", "?"}
    ensures Dispatch(parts, s, ai) == [Line(HelpText)]
  {
  }

  lemma DispatchClear(parts: seq<string>, s: Session, ai: AiResponse)
    requires |parts| >= 1 && Name(parts) in {"clear", "cls"}
    ensures Dispatch(parts, s, ai) == [ClearScreen]
  {
  }

  lemma DispatchVersion(parts: seq<string>, s: Session, ai: AiResponse)
    requires |parts| >= 1 && Name(parts) in {"version", "ver"}
    ensures Dispatch(parts, s, ai) == [Line(VersionLine), Line(AuthorLine)]
  {
  }

  lemma DispatchTab(parts: seq<string>, s: Session, ai: AiResponse)
    requires |parts| >= 1 && Name(parts) == "tab" && HasArg(parts)
    ensures Dispatch(parts, s, ai) == TabEvents(LowerStr(parts[1]))
  {
  }

  lemma DispatchProjects(parts: seq<string>, s: Session, ai: AiResponse)
    requires |parts| >= 1 && Name(parts) == "projects"
    ensures Dispatch(parts, s, ai) == Lines(ProjectsOutput(s.projects))
  {
  }

  lemma DispatchSkills(parts: seq<string>, s: Session, ai: AiResponse)
    requires |parts| >= 1 && Name(parts) == "skills"
    ensures Dispatch(parts, s, ai) == Lines(SkillsOutput(s.bio))
  {
  }

  lemma DispatchAbout(parts: seq<string>, s: Session, ai: AiResponse)
    requires |parts| >= 1 && Name(parts) == "about"
    ensures Dispatch(parts, s, ai) == Lines(AboutLines(s.bio))
  {
  }

  lemma DispatchPortfolio(parts: seq<string>, s: Session, ai: AiResponse)
    requires |parts| >= 1 && Name(parts) == "portfolio"
    ensures Dispatch(parts, s, ai) == [ActivateTab("portfolio"), Line("Opening portfolio overview...")]
  {
  }

  lemma DispatchAi(parts: seq<string>, s: Session, ai: AiResponse)
    requires |parts| >= 1 && Name(parts) == "ai"
    ensures Dispatch(parts, s, ai) == AiEvents(Arg(parts), ai)
  {
  }

  lemma DispatchOpen(parts: seq<string>, s: Session, ai: AiResponse)
    requires |parts| >= 1 && Name(parts) == "open" && HasArg(parts)
    ensures Dispatch(parts, s, ai) == OpenEvents(Arg(parts), s.links)
  {
  }

  lemma DispatchUnknown(parts: seq<string>, s: Session, ai: AiResponse)
    requires |parts| >= 1
    requires Name(parts) !in KnownNames || (Name(parts) in {"tab", "open"} && !HasArg(parts))
    ensures Dispatch(parts, s, ai) == [Line(UnknownLine(Name(parts)))]
  {
  }

  /** Only `clear` and `cls` wipe the screen. */
  lemma ClearIff(cmd: string, s: Session, ai: AiResponse)
    ensures ClearScreen in RunCmd(cmd, s, ai) <==> cmd != "" && Name(Tokens(cmd)) in {"clear", "cls"}
  {
    if cmd != "" {
      var parts := Tokens(cmd);
      EchoThen(cmd, s, ai, Dispatch(Tokens(cmd), s, ai));
      if Name(parts) in {"clear", "cls"} {
        DispatchClear(parts, s, ai);
      } else {
        NoClearOutside(parts, s, ai);
      }
    }
  }

  lemma NoClearOutside(parts: seq<string>, s: Session, ai: AiResponse)
    requires |parts| >= 1 && Name(parts) !in {"clear", "cls"}
    ensures ClearScreen !in Dispatch(parts, s, ai)
  {
    var name := Name(parts);
    if name == "projects" {
      DispatchProjects(parts, s, ai);
      LinesAreLines(ProjectsOutput(s.projects));
    } else if name == "skills" {
      DispatchSkills(parts, s, ai);
      LinesAreLines(SkillsOutput(s.bio));
    } else if name == "about" {
      DispatchAbout(parts, s, ai);
      LinesAreLines(AboutLines(s.bio));
    } else if name == "ai" {
      DispatchAi(parts, s, ai);
      LinesAreLines(AiResult(ai));
    }
  }

  // ---------------------------------------------------------------------
  // The transcript

  /** `addOutput` appends one line; `clear` empties the transcript; the other
      events leave it alone. */
  function Apply(t: seq<string>, e: Event): seq<string>
  {
    match e
    case Line(text) => t + [text]
    case ClearScreen => []
    case _ => t
  }

  function Render(t: seq<string>, evs: seq<Event>): seq<string>
  {
    if evs == [] then t else Apply(Render(t, evs[..|evs| - 1]), evs[|evs| - 1])
  }

  /** The texts of the line events, in order. */
  function Texts(evs: seq<Event>): seq<string>
  {
    if evs == [] then []
    else Texts(evs[..|evs| - 1]) + (if evs[|evs| - 1].Line? then [evs[|evs| - 1].text] else [])
  }

  /** The requests to the page, in order. */
  function Effects(evs: seq<Event>): (r: seq<Event>)
  {
    if evs == [] then []
    else
      var e := evs[|evs| - 1];
      Effects(evs[..|evs| - 1]) + (if e.Line? || e.ClearScreen? then [] else [e])
  }

  /** Without a clear, rendering only appends the line texts, in order: no
      line is ever retracted or reordered. */
  lemma {:induction false} RenderAppends(t: seq<string>, evs: seq<Event>)
    requires ClearScreen !in evs
    ensures Render(t, evs) == t + Texts(evs)
  {
    if evs != [] {
      var init := evs[..|evs| - 1];
      assert forall e :: e in init ==> e in evs;
      RenderAppends(t, init);
    }
  }

  /** A clear as the last event leaves an empty transcript, whatever came
      before. */
  lemma RenderEndsWithClear(t: seq<string>, evs: seq<Event>)
    requires evs != [] && evs[|evs| - 1] == ClearScreen
    ensures Render(t, evs) == []
  {
  }

  // ---------------------------------------------------------------------
  // What each command does

  /** An unrecognised command name gives the echo and exactly one line
      naming it and pointing to `help`. */
  lemma UnknownCommand(cmd: string, s: Session, ai: AiResponse)
    requires cmd != "" && Name(Tokens(cmd)) !in KnownNames
    ensures RunCmd(cmd, s, ai) == [Line("> " + cmd), Line(UnknownLine(Name(Tokens(cmd))))]
  {
    DispatchUnknown(Tokens(cmd), s, ai);
    EchoThen(cmd, s, ai, [Line(UnknownLine(Name(Tokens(cmd))))]);
  }

  /** `help` and `?` add one entry, the multi-line help text. */
  lemma HelpCommand(cmd: string, s: Session, ai: AiResponse)
    requires cmd != "" && Name(Tokens(cmd)) in {"help", "?"}
    ensures RunCmd(cmd, s, ai) == [Line("> " + cmd), Line(HelpText)]
  {
    DispatchHelp(Tokens(cmd), s, ai);
    EchoThen(cmd, s, ai, [Line(HelpText)]);
  }

  /** `version` and `ver` add exactly two lines after the echo. */
  lemma VersionCommand(cmd: string, s: Session, ai: AiResponse)
    requires cmd != "" && Name(Tokens(cmd)) in {"version", "ver"}
    ensures RunCmd(cmd, s, ai) == [Line("> " + cmd), Line(VersionLine), Line(AuthorLine)]
  {
    DispatchVersion(Tokens(cmd), s, ai);
    EchoThen(cmd, s, ai, [Line(VersionLine), Line(AuthorLine)]);
  }

  /** `clear` and `cls` leave the transcript empty, their echo included;
      every other command only appends its lines. */
  lemma ClearWipesTranscript(t: seq<string>, cmd: string, s: Session, ai: AiResponse)
    ensures cmd != "" && Name(Tokens(cmd)) in {"clear", "cls"} ==> Render(t, RunCmd(cmd, s, ai)) == []
    ensures !(cmd != "" && Name(Tokens(cmd)) in {"clear", "cls"}) ==>
      Render(t, RunCmd(cmd, s, ai)) == t + Texts(RunCmd(cmd, s, ai))
  {
    var evs := RunCmd(cmd, s, ai);
    ClearIff(cmd, s, ai);
    if cmd != "" && Name(Tokens(cmd)) in {"clear", "cls"} {
      DispatchClear(Tokens(cmd), s, ai);
      EchoThen(cmd, s, ai, [ClearScreen]);
      assert evs == [Line("> " + cmd), ClearScreen];
      RenderEndsWithClear(t, evs);
    } else {
      RenderAppends(t, evs);
    }
  }

  /** A single word is the whole token list. */
  lemma TokensOfWord(w: string)
    requires IsWord(w)
    ensures Tokens(w) == [w]
  {
    SplitOnSpaceWord(w);
  }

  /** `tab` or `open` typed alone (any case) falls through to the unknown
      command line, which names the lower-cased word. */
  lemma BareTabOrOpen(w: string, s: Session, ai: AiResponse)
    requires IsWord(w) && LowerStr(w) in {"tab", "open"}
    ensures RunCmd(w, s, ai) == [Line("> " + w), Line(UnknownLine(LowerStr(w)))]
  {
    DispatchBare(w, s, ai);
    EchoThen(w, s, ai, [Line(UnknownLine(LowerStr(w)))]);
  }

  /** The chain on a bare `tab` or `open`. */
  lemma DispatchBare(w: string, s: Session, ai: AiResponse)
    requires IsWord(w) && LowerStr(w) in {"tab", "open"}
    ensures Dispatch(Tokens(w), s, ai) == [Line(UnknownLine(LowerStr(w)))]
  {
    TokensOfWord(w);
    DispatchUnknown([w], s, ai);
  }

  /** The tokens of `w gap rest`: the word, then the tokens of `rest`. */
  lemma TokensOfCommand(w: string, gap: string, rest: string)
    requires IsWord(w) && gap != [] && AllSpace(JavaScript, gap)
    requires rest != [] && !IsSpace(JavaScript, rest[0])
    ensures Tokens(w + gap + rest) == [w] + SplitOnSpace(rest)
    ensures Name(Tokens(w + gap + rest)) == LowerStr(w)
    ensures HasArg(Tokens(w + gap + rest))
    ensures Arg(Tokens(w + gap + rest)) == Join(SplitOnSpace(rest), " ")
  {
    SplitOnSpaceCons(w, gap, rest);
    var p := SplitOnSpace(rest);
    var i := FirstSpace(rest);
    assert i > 0;
    assert p[0] == rest[..i];
    assert ([w] + p)[1..] == p;
  }

  /** `tab name ...`: the lower-cased first argument is validated against the
      four tab names; a valid one activates that tab exactly once and
      confirms, any other lists the valid names. Later tokens are ignored. */
  lemma TabCommand(w: string, gap: string, arg: string, tail: string, s: Session, ai: AiResponse)
    requires IsWord(w) && LowerStr(w) == "tab" && gap != [] && AllSpace(JavaScript, gap)
    requires IsWord(arg) && (tail == [] || IsSpace(JavaScript, tail[0]))
    ensures var cmd := w + gap + (arg + tail); var name := LowerStr(arg);
      RunCmd(cmd, s, ai) ==
        if name in ValidTabs then
          [Line("> " + cmd), ActivateTab(name), Line("Switched to " + name + " tab.")]
        else
          [Line("> " + cmd), Line("Invalid tab. Available: " + Join(ValidTabs, ", "))]
  {
    var cmd := w + gap + (arg + tail);
    TokensOfCommand(w, gap, arg + tail);
    FirstSpaceAt(arg, tail);
    assert (arg + tail)[..|arg|] == arg;
    var parts := Tokens(cmd);
    assert parts[1] == arg;
    DispatchTab(parts, s, ai);
    EchoThen(cmd, s, ai, TabEvents(LowerStr(arg)));
  }

  /** `ai` alone prints the usage line and posts nothing. */
  lemma AiWithoutQuery(w: string, s: Session, ai: AiResponse)
    requires IsWord(w) && LowerStr(w) == "ai"
    ensures RunCmd(w, s, ai) == [Line("> " + w), Line("Usage: ai <your question>")]
    ensures forall e :: e in RunCmd(w, s, ai) ==> !e.PostPrompt?
  {
    DispatchAiBare(w, s, ai);
    EchoThen(w, s, ai, [Line("Usage: ai <your question>")]);
  }

  /** The chain on a bare `ai`. */
  lemma DispatchAiBare(w: string, s: Session, ai: AiResponse)
    requires IsWord(w) && LowerStr(w) == "ai"
    ensures Dispatch(Tokens(w), s, ai) == [Line("Usage: ai <your question>")]
  {
    TokensOfWord(w);
    assert Arg([w]) == "";
    DispatchAi([w], s, ai);
  }

  /** `ai question`: "Thinking..." first, then one post of the question with
      its whitespace runs collapsed, then the response's lines in order. */
  lemma AiWithQuery(w: string, gap: string, q: string, s: Session, ai: AiResponse)
    requires IsWord(w) && LowerStr(w) == "ai" && gap != [] && AllSpace(JavaScript, gap)
    requires q != [] && !IsSpace(JavaScript, q[0])
    ensures var cmd := w + gap + q;
      RunCmd(cmd, s, ai) ==
        [Line("> " + cmd), Line("Thinking..."), PostPrompt(Join(SplitOnSpace(q), " "))]
        + Lines(AiResult(ai))
  {
    var cmd := w + gap + q;
    var asked := [Line("Thinking..."), PostPrompt(Join(SplitOnSpace(q), " "))] + Lines(AiResult(ai));
    DispatchAiQuery(w, gap, q, s, ai);
    EchoThen(cmd, s, ai, asked);
    Prepend(Line("> " + cmd), Line("Thinking..."), PostPrompt(Join(SplitOnSpace(q), " ")), Lines(AiResult(ai)));
  }

  /** Moves the echo line into the display that follows it. */
  lemma Prepend(e: Event, a: Event, b: Event, rest: seq<Event>)
    ensures [e] + ([a, b] + rest) == [e, a, b] + rest
  {
  }

  /** The chain on `ai` followed by a question. */
  lemma DispatchAiQuery(w: string, gap: string, q: string, s: Session, ai: AiResponse)
    requires IsWord(w) && LowerStr(w) == "ai" && gap != [] && AllSpace(JavaScript, gap)
    requires q != [] && !IsSpace(JavaScript, q[0])
    ensures Dispatch(Tokens(w + gap + q), s, ai) ==
      [Line("Thinking..."), PostPrompt(Join(SplitOnSpace(q), " "))] + Lines(AiResult(ai))
  {
    TokensOfCommand(w, gap, q);
    QueryNotEmpty(q);
    DispatchAi(Tokens(w + gap + q), s, ai);
  }

  lemma QueryNotEmpty(q: string)
    requires q != [] && !IsSpace(JavaScript, q[0])
    ensures Join(SplitOnSpace(q), " ") != ""
  {
    JoinStartsLikeSplit(q);
    var p := SplitOnSpace(q);
    var i := FirstSpace(q);
    assert p[0] == q[..i] && i > 0;
    if |p| > 1 {
      assert Join(p, " ") == p[0] + " " + Join(p[1..], " ");
    }
  }

  /** `open name`: the argument is looked up by its slug; a hit opens the
      link's URL and then confirms, a miss or a map not loaded yet gives one
      "No link matched" line. */
  lemma OpenCommand(w: string, gap: string, rest: string, s: Session, ai: AiResponse)
    requires IsWord(w) && LowerStr(w) == "open" && gap != [] && AllSpace(JavaScript, gap)
    requires rest != [] && !IsSpace(JavaScript, rest[0])
    ensures var cmd := w + gap + rest; var shown := Join(SplitOnSpace(rest), " ");
      RunCmd(cmd, s, ai) ==
        if s.links.Some? && Slug(rest) in s.links.value then
          [Line("> " + cmd), OpenUrl(s.links.value[Slug(rest)].url), Line("Opened link: " + shown)]
        else
          [Line("> " + cmd), Line("No link matched: " + shown)]
  {
    var cmd := w + gap + rest;
    var shown := Join(SplitOnSpace(rest), " ");
    DispatchOpenArg(w, gap, rest, s, ai);
    if s.links.Some? && Slug(rest) in s.links.value {
      EchoThen(cmd, s, ai, [OpenUrl(s.links.value[Slug(rest)].url), Line("Opened link: " + shown)]);
    } else {
      EchoThen(cmd, s, ai, [Line("No link matched: " + shown)]);
    }
  }

  /** The chain on `open` followed by a name. */
  lemma DispatchOpenArg(w: string, gap: string, rest: string, s: Session, ai: AiResponse)
    requires IsWord(w) && LowerStr(w) == "open" && gap != [] && AllSpace(JavaScript, gap)
    requires rest != [] && !IsSpace(JavaScript, rest[0])
    ensures var shown := Join(SplitOnSpace(rest), " ");
      Dispatch(Tokens(w + gap + rest), s, ai) ==
        if s.links.Some? && Slug(rest) in s.links.value then
          [OpenUrl(s.links.value[Slug(rest)].url), Line("Opened link: " + shown)]
        else
          [Line("No link matched: " + shown)]
  {
    TokensOfCommand(w, gap, rest);
    DispatchOpen(Tokens(w + gap + rest), s, ai);
    SlugOfRejoined(rest);
  }

  /** `open` resolves two arguments with the same words up to case to the
      same link, however they are spaced: the links loaded from `items` are
      found by any such spelling of their names. */
  lemma OpenIgnoresCaseAndSpacing(
    w: string, gap: string, rest: string, items: seq<Link>, i: nat, s: Session, ai: AiResponse)
    requires IsWord(w) && LowerStr(w) == "open" && gap != [] && AllSpace(JavaScript, gap)
    requires rest != [] && !IsSpace(JavaScript, rest[0])
    requires i < |items| && s.links == Some(LinkMap(items))
    requires MapLower(SplitOnSpace(rest)) == MapLower(SplitOnSpace(items[i].name))
    ensures Slug(rest) == Slug(items[i].name) && Slug(rest) in LinkMap(items)
    ensures Effects(RunCmd(w + gap + rest, s, ai)) == [OpenUrl(LinkMap(items)[Slug(items[i].name)].url)]
  {
    var cmd := w + gap + rest;
    var m := LinkMap(items);
    LinkLookupIgnoresCaseAndSpacing(items, i, rest);
    SlugIgnoresCaseAndSpacing(rest, items[i].name);
    var url := m[Slug(rest)].url;
    var confirm := "Opened link: " + Join(SplitOnSpace(rest), " ");
    OpenCommand(w, gap, rest, s, ai);
    EffectsOfOpenHit("> " + cmd, url, confirm);
  }

  lemma EffectsOfOpenHit(echo: string, url: string, confirm: string)
    ensures Effects([Line(echo), OpenUrl(url), Line(confirm)]) == [OpenUrl(url)]
  {
    var one := [Line(echo)];
    var two := one + [OpenUrl(url)];
    assert one[..0] == [];
    assert Effects(one) == [];
    assert two[..1] == one;
    assert Effects(two) == [OpenUrl(url)];
    assert (two + [Line(confirm)])[..2] == two;
    assert [Line(echo), OpenUrl(url), Line(confirm)] == two + [Line(confirm)];
  }

  /** `projects` with N > 0 loaded projects adds a header, N numbered lines
      and one URL line per project with a URL; otherwise one line. */
  lemma ProjectsCommand(cmd: string, s: Session, ai: AiResponse)
    requires cmd != "" && Name(Tokens(cmd)) == "projects"
    ensures var evs := RunCmd(cmd, s, ai);
      if s.projects.Some? && |s.projects.value| > 0 then
        |evs| == 2 + |s.projects.value| + UrlCount(s.projects.value)
        && evs[1] == Line("Found " + NatToString(|s.projects.value|) + " project(s):")
        && evs[2..] == Lines(ProjectLines(s.projects.value))
      else evs == [Line("> " + cmd), Line("No projects available.")]
  {
    var out := Lines(ProjectsOutput(s.projects));
    DispatchProjects(Tokens(cmd), s, ai);
    EchoThen(cmd, s, ai, out);
    if s.projects.Some? && |s.projects.value| > 0 {
      ProjectsAfterHeader(s.projects.value);
      DropEchoAndOne(Line("> " + cmd), out);
    }
  }

  /** After its header, the `projects` output is the project lines. */
  lemma ProjectsAfterHeader(ps: seq<Project>)
    requires |ps| > 0
    ensures Lines(ProjectsOutput(Some(ps)))[1..] == Lines(ProjectLines(ps))
  {
    var header := "Found " + NatToString(|ps|) + " project(s):";
    var lines := ProjectLines(ps);
    assert ProjectsOutput(Some(ps)) == [header] + lines;
    LinesConcat([header], lines);
  }

  /** `Lines` distributes over concatenation. */
  lemma LinesConcat(a: seq<string>, b: seq<string>)
    ensures Lines(a + b) == Lines(a) + Lines(b)
  {
    assert forall k :: 0 <= k < |a + b| ==> Lines(a + b)[k] == (Lines(a) + Lines(b))[k];
  }

  /** Dropping the echo and one more event from `[e] + out` leaves `out[1..]`. */
  lemma DropEchoAndOne(e: Event, out: seq<Event>)
    requires |out| >= 1
    ensures ([e] + out)[2..] == out[1..]
  {
  }

  /** `skills` adds two lines per category, categories in order of first
      appearance; without skill data, one line. */
  lemma SkillsCommand(cmd: string, s: Session, ai: AiResponse)
    requires cmd != "" && Name(Tokens(cmd)) == "skills"
    ensures var evs := RunCmd(cmd, s, ai);
      if s.bio.Some? && s.bio.value.skills.Some? then
        |evs| == 1 + 2 * |Categories(s.bio.value.skills.value)|
        && evs[1..] == Lines(SkillsLines(Grouping(s.bio.value.skills.value)))
      else evs == [Line("> " + cmd), Line("Skills data not available.")]
  {
    DispatchSkills(Tokens(cmd), s, ai);
    EchoThen(cmd, s, ai, Lines(SkillsOutput(s.bio)));
  }

  /** `about` adds the four bio lines, a missing or empty field shown by its
      fallback; before the bio is loaded, one line. */
  lemma AboutCommand(cmd: string, s: Session, ai: AiResponse)
    requires cmd != "" && Name(Tokens(cmd)) == "about"
    ensures var evs := RunCmd(cmd, s, ai);
      if s.bio.Some? then
        var b := s.bio.value;
        |evs| == 5
        && evs[1] == Line("Name: " + (if b.name.Some? && b.name.value != "" then b.name.value else "Cormac Greaney"))
        && evs[2] == Line("Tagline: " + (if b.tagline.Some? && b.tagline.value != "" then b.tagline.value else "Developer & Creator"))
        && evs[3] == Line("Location: " + (if b.location.Some? && b.location.value != "" then b.location.value else "Not specified"))
        && evs[4] == Line("About: " + (if b.about.Some? && b.about.value != "" then b.about.value else "No description available."))
      else evs == [Line("> " + cmd), Line("About information not available.")]
  {
    DispatchAbout(Tokens(cmd), s, ai);
    EchoThen(cmd, s, ai, Lines(AboutLines(s.bio)));
  }

  /** `portfolio` activates the portfolio tab, then says so. */
  lemma PortfolioCommand(cmd: string, s: Session, ai: AiResponse)
    requires cmd != "" && Name(Tokens(cmd)) == "portfolio"
    ensures RunCmd(cmd, s, ai) ==
      [Line("> " + cmd), ActivateTab("portfolio"), Line("Opening portfolio overview...")]
  {
    DispatchPortfolio(Tokens(cmd), s, ai);
    EchoThen(cmd, s, ai, [ActivateTab("portfolio"), Line("Opening portfolio overview...")]);
  }

  /** After "Thinking...": a thrown error gives one connection-error line; a
      payload with a non-empty reply gives its lines, one more than it has
      line breaks; otherwise one line with the payload's error, or "Unknown
      error" when it has none. */
  lemma AiResultCases(ai: AiResponse)
    ensures ai.ConnectionError? ==> AiResult(ai) == ["AI connection error: " + ai.message]
    ensures ai.Payload? && ai.reply.Some? && ai.reply.value != "" ==>
      |AiResult(ai)| == NewlineCount(ai.reply.value) + 1
    ensures ai.Payload? && (ai.reply.None? || ai.reply.value == "") ==>
      AiResult(ai) == ["AI error: " + (if ai.error.Some? && ai.error.value != "" then ai.error.value else "Unknown error")]
  {
    if ai.Payload? && ai.reply.Some? && ai.reply.value != "" {
      ReplyLinesFaithful(ai.reply.value);
    }
  }
}
