/**
 The window's address: a hash read as a route, and a route written as a hash.
 */
module Router {
  import opened Text
  import opened Markdown

  datatype MeetingTab = Transcript | Summary | MeetingNotes | MeetingAsk
  datatype HelpSection = Docs | Support | WhatsNew | Shortcuts
  datatype SettingsSection =
    | Appearance | Recording | Transcription | Models | Summaries | Assistant | Tools | Search | Speakers

  datatype Route =
    | Home | Record | Library
    | Meeting(id: string, tab: MeetingTab)
    | Notes(note: Option<string>)
    | Tasks | Tickets
    | People(person: Option<string>)
    | Ask | Trash | Agent | Jobs | Connectors | Overlay
    | Help(help: Option<HelpSection>)
    | Settings(settings: Option<SettingsSection>)
    | About

  // ---------------------------------------------------------------- names

  function TabName(tab: MeetingTab): string {
    match tab
    case Transcript => "transcript" case Summary => "summary" case MeetingNotes => "notes" case MeetingAsk => "ask"
  }

  function TabNamed(s: string): Option<MeetingTab> {
    if s == "transcript" then Some(Transcript) else if s == "summary" then Some(Summary)
    else if s == "notes" then Some(MeetingNotes) else if s == "ask" then Some(MeetingAsk) else None
  }

  function HelpName(section: HelpSection): string {
    match section
    case Docs => "docs" case Support => "support" case WhatsNew => "whats-new" case Shortcuts => "shortcuts"
  }

  function HelpNamed(s: string): Option<HelpSection> {
    if s == "docs" then Some(Docs) else if s == "support" then Some(Support)
    else if s == "whats-new" then Some(WhatsNew) else if s == "shortcuts" then Some(Shortcuts) else None
  }

  function SettingsName(section: SettingsSection): string {
    match section
    case Appearance => "appearance" case Recording => "recording" case Transcription => "transcription"
    case Models => "models" case Summaries => "summaries" case Assistant => "assistant"
    case Tools => "tools" case Search => "search" case Speakers => "speakers"
  }

  function SettingsNamed(s: string): Option<SettingsSection> {
    if s == "appearance" then Some(Appearance) else if s == "recording" then Some(Recording)
    else if s == "transcription" then Some(Transcription) else if s == "models" then Some(Models)
    else if s == "summaries" then Some(Summaries) else if s == "assistant" then Some(Assistant)
    else if s == "tools" then Some(Tools) else if s == "search" then Some(Search)
    else if s == "speakers" then Some(Speakers) else None
  }

  /** The first word of the address of a route that is not the home page or a meeting. */
  function RouteName(route: Route): string {
    match route
    case Home => "home" case Record => "record" case Library => "library" case Meeting(_, _) => "meeting"
    case Notes(_) => "notes" case Tasks => "tasks" case Tickets => "tickets" case People(_) => "people"
    case Ask => "ask" case Trash => "trash" case Agent => "agent" case Jobs => "jobs"
    case Connectors => "connectors" case Overlay => "overlay" case Help(_) => "help"
    case Settings(_) => "settings" case About => "about"
  }

  // ---------------------------------------------------------------- reading

  /** `path.split("/").filter(Boolean)`: the non-empty parts between slashes. */
  function Parts(s: string): (r: seq<string>)
    decreases |s|
  {
    if s == "" then []
    else
      var k := Find(s, '/');
      (if k == 0 then [] else [s[..k]]) + if k < |s| then Parts(s[k + 1..]) else []
  }

  function StripHash(s: string): string {
    if "#/" <= s then s[2..] else if "#" <= s then s[1..] else s
  }

  function Path(hash: string): string {
    var s := StripHash(hash);
    s[..Find(s, '?')]
  }

  function PartAt(parts: seq<string>, i: nat): Option<string> {
    if i < |parts| then Some(parts[i]) else None
  }

  function OptionalHelp(part: Option<string>): Option<HelpSection> {
    match part case None => None case Some(s) => HelpNamed(s)
  }

  function OptionalSettings(part: Option<string>): Option<SettingsSection> {
    match part case None => None case Some(s) => SettingsNamed(s)
  }

  function ReadMeeting(parts: seq<string>): Route {
    match PartAt(parts, 1)
    case None => Library
    case Some(id) =>
      match PartAt(parts, 2)
      case None => Meeting(id, Transcript)
      case Some(s) => Meeting(id, match TabNamed(s) case Some(tab) => tab case None => Transcript)
  }

  function ReadParts(parts: seq<string>): Route {
    if parts == [] then Home
    else
      var first, second := parts[0], PartAt(parts, 1);
      if first == "meetings" then ReadMeeting(parts)
      else if first == "record" then Record
      else if first == "library" then Library
      else if first == "notes" then Notes(second)
      else if first == "tasks" then Tasks
      else if first == "tickets" then Tickets
      else if first == "people" then People(second)
      else if first == "ask" then Ask
      else if first == "trash" then Trash
      else if first == "agent" then Agent
      else if first == "jobs" then Jobs
      else if first == "connectors" then Connectors
      else if first == "overlay" then Overlay
      else if first == "help" then Help(OptionalHelp(second))
      else if first == "settings" then Settings(OptionalSettings(second))
      else if first == "about" then About
      else Home
  }

  /** The route an address names, or home when it names none. */
  function ParseRoute(hash: string): Route {
    ReadParts(Parts(Path(hash)))
  }

  // ---------------------------------------------------------------- writing

  /** A path with an optional last part; an empty id counts as none. */
  function WithPart(name: string, part: Option<string>): string {
    match part
    case Some(s) => if s != "" then "#/" + name + "/" + s else "#/" + name
    case None => "#/" + name
  }

  function RouteToHash(route: Route): string {
    match route
    case Home => "#/"
    case Meeting(id, tab) => "#/meetings/" + id + "/" + TabName(tab)
    case Notes(id) => WithPart("notes", id)
    case People(id) => WithPart("people", id)
    case Help(section) => WithPart("help", match section case Some(h) => Some(HelpName(h)) case None => None)
    case Settings(section) =>
      WithPart("settings", match section case Some(s) => Some(SettingsName(s)) case None => None)
    case _ => "#/" + RouteName(route)
  }

  // ---------------------------------------------------------------- the round trip

  predicate CleanPart(s: string) {
    s != "" && '/' !in s && '?' !in s
  }

  /** The ids in a route are ones an address can hold. */
  predicate CleanRoute(route: Route) {
    match route
    case Meeting(id, _) => CleanPart(id)
    case Notes(id) => id.Some? ==> CleanPart(id.value)
    case People(id) => id.Some? ==> CleanPart(id.value)
    case _ => true
  }

  lemma {:induction false} FindAbsent(s: string, c: char)
    requires c !in s
    ensures Find(s, c) == |s|
  {
    if s != "" { FindAbsent(s[1..], c); }
  }

  lemma OnePart(a: string)
    requires a != "" && '/' !in a
    ensures Parts(a) == [a]
  {
    FindAbsent(a, '/');
    assert a[..|a|] == a;
  }

  lemma PartThen(a: string, rest: string)
    requires a != "" && '/' !in a
    ensures Parts(a + ("/" + rest)) == [a] + Parts(rest)
  {
    var s := a + ("/" + rest);
    FindBefore(a, '/', ['/'] + rest);
    assert s[..|a|] == a && s[|a| + 1..] == rest;
  }

  /** What was written after `#/` is the path, when it holds no query. */
  lemma PathOf(s: string)
    requires '?' !in s
    ensures Path("#/" + s) == s
  {
    assert ("#/" + s)[2..] == s;
    FindAbsent(s, '?');
  }

  lemma ReadsOne(name: string)
    requires CleanPart(name)
    ensures Parts(Path("#/" + name)) == [name]
  {
    PathOf(name);
    OnePart(name);
  }

  lemma ReadsTwo(name: string, part: string)
    requires CleanPart(name) && CleanPart(part)
    ensures Parts(Path("#/" + name + "/" + part)) == [name, part]
  {
    assert "#/" + name + "/" + part == "#/" + (name + ("/" + part));
    PathOf(name + ("/" + part));
    PartThen(name, part);
    OnePart(part);
  }

  lemma ReadsThree(name: string, part: string, last: string)
    requires CleanPart(name) && CleanPart(part) && CleanPart(last)
    ensures Parts(Path("#/" + (name + ("/" + (part + ("/" + last)))))) == [name, part, last]
  {
    PathOf(name + ("/" + (part + ("/" + last))));
    PartThen(name, part + ("/" + last));
    PartThen(part, last);
    OnePart(last);
  }

  lemma TabNameReadsBack(tab: MeetingTab)
    ensures CleanPart(TabName(tab)) && TabNamed(TabName(tab)) == Some(tab)
  {
  }

  lemma HelpNameReadsBack(section: HelpSection)
    ensures CleanPart(HelpName(section)) && HelpNamed(HelpName(section)) == Some(section)
  {
  }

  lemma SettingsNameReadsBack(section: SettingsSection)
    ensures CleanPart(SettingsName(section)) && SettingsNamed(SettingsName(section)) == Some(section)
  {
  }

  lemma RouteNameIsClean(route: Route)
    ensures CleanPart(RouteName(route))
  {
  }

  lemma MeetingReadsBack(id: string, tab: MeetingTab)
    requires CleanPart(id)
    ensures ParseRoute(RouteToHash(Meeting(id, tab))) == Meeting(id, tab)
  {
    TabNameReadsBack(tab);
    var name := "meetings";
    assert RouteToHash(Meeting(id, tab)) == "#/" + (name + ("/" + (id + ("/" + TabName(tab)))));
    ReadsThree(name, id, TabName(tab));
  }

  /** A route whose address is its name alone. */
  predicate NameOnly(route: Route) {
    match route
    case Home | Meeting(_, _) => false
    case Notes(id) => id.None?
    case People(id) => id.None?
    case Help(section) => section.None?
    case Settings(section) => section.None?
    case _ => true
  }

  lemma NameReads(route: Route)
    requires NameOnly(route)
    ensures ReadParts([RouteName(route)]) == route
  {
    match route
    case Record | Library | Tickets | Overlay | People(_) | Connectors => LongNameReads(route);
    case _ => ShortNameReads(route);
  }

  lemma LongNameReads(route: Route)
    requires NameOnly(route)
    requires route.Record? || route.Library? || route.Tickets? || route.Overlay? || route.People? || route.Connectors?
    ensures ReadParts([RouteName(route)]) == route
  {
  }

  lemma ShortNameReads(route: Route)
    requires NameOnly(route) && |RouteName(route)| in [3, 4, 5, 8]
    requires !route.Record? && !route.Library? && !route.Tickets?
    requires !route.Overlay? && !route.People? && !route.Connectors?
    ensures ReadParts([RouteName(route)]) == route
  {
    match route
    case Notes(_) | Tasks | Trash | Agent | About => FiveLetterNameReads(route);
    case _ =>
  }

  lemma FiveLetterNameReads(route: Route)
    requires NameOnly(route) && (route.Notes? || route.Tasks? || route.Trash? || route.Agent? || route.About?)
    ensures ReadParts([RouteName(route)]) == route
  {
    var name := RouteName(route);
    assert |name| == 5;
    assert "tasks"[1] == 'a' && "trash"[1] == 'r' && "agent"[1] == 'g' && "about"[1] == 'b' && "notes"[1] == 'o';
  }

  lemma PlainReadsBack(route: Route)
    requires NameOnly(route)
    ensures ParseRoute(RouteToHash(route)) == route
  {
    RouteNameIsClean(route);
    ReadsOne(RouteName(route));
    NameReads(route);
  }

  lemma WithPartReadsBack(name: string, part: string)
    requires CleanPart(name) && CleanPart(part)
    ensures Parts(Path(WithPart(name, Some(part)))) == [name, part]
  {
    ReadsTwo(name, part);
  }

  lemma PartReadsBack(route: Route, name: string, part: string)
    requires CleanPart(name) && CleanPart(part)
    requires RouteToHash(route) == WithPart(name, Some(part)) && ReadParts([name, part]) == route
    ensures ParseRoute(RouteToHash(route)) == route
  {
    WithPartReadsBack(name, part);
  }

  lemma IdReads(route: Route, id: string)
    requires id != "" && (route == Notes(Some(id)) || route == People(Some(id)))
    ensures ReadParts([RouteName(route), id]) == route
    ensures RouteToHash(route) == WithPart(RouteName(route), Some(id))
  {
  }

  lemma IdReadsBack(route: Route, id: string)
    requires CleanPart(id) && (route == Notes(Some(id)) || route == People(Some(id)))
    ensures ParseRoute(RouteToHash(route)) == route
  {
    RouteNameIsClean(route);
    IdReads(route, id);
    PartReadsBack(route, RouteName(route), id);
  }

  lemma HelpReads(route: Route, section: HelpSection, part: string)
    requires route == Help(Some(section)) && part == HelpName(section) && HelpNamed(part) == Some(section)
    ensures ReadParts([RouteName(route), part]) == route
    ensures RouteToHash(route) == WithPart(RouteName(route), Some(part))
  {
  }

  lemma HelpReadsBack(route: Route, section: HelpSection)
    requires route == Help(Some(section))
    ensures ParseRoute(RouteToHash(route)) == route
  {
    RouteNameIsClean(route);
    HelpNameReadsBack(section);
    HelpReads(route, section, HelpName(section));
    PartReadsBack(route, RouteName(route), HelpName(section));
  }

  lemma SettingsReads(route: Route, section: SettingsSection, part: string)
    requires route == Settings(Some(section)) && part == SettingsName(section)
    requires SettingsNamed(part) == Some(section)
    ensures ReadParts([RouteName(route), part]) == route
    ensures RouteToHash(route) == WithPart(RouteName(route), Some(part))
  {
  }

  lemma SettingsReadsBack(route: Route, section: SettingsSection)
    requires route == Settings(Some(section))
    ensures ParseRoute(RouteToHash(route)) == route
  {
    RouteNameIsClean(route);
    SettingsNameReadsBack(section);
    SettingsReads(route, section, SettingsName(section));
    PartReadsBack(route, RouteName(route), SettingsName(section));
  }

  lemma CleanReadsBack(route: Route)
    requires CleanRoute(route)
    ensures ParseRoute(RouteToHash(route)) == route
  {
    match route
    case Home => HomeReadsBack();
    case Meeting(id, tab) => MeetingReadsBack(id, tab);
    case Notes(Some(id)) => IdReadsBack(route, id);
    case People(Some(id)) => IdReadsBack(route, id);
    case Help(Some(h)) => HelpReadsBack(route, h);
    case Settings(Some(s)) => SettingsReadsBack(route, s);
    case _ => PlainReadsBack(route);
  }

  lemma HomeReadsBack()
    ensures ParseRoute("#/") == Home
  {
    var rest := "";
    assert "#/" + rest == "#/";
    PathOf(rest);
  }

  lemma {:induction false} PartsAreClean(s: string)
    requires '?' !in s
    ensures forall i :: 0 <= i < |Parts(s)| ==> CleanPart(Parts(s)[i])
    decreases |s|
  {
    if s != "" {
      var k := Find(s, '/');
      if k < |s| { PartsAreClean(s[k + 1..]); }
    }
  }

  /** Whatever the hash, the route read from it is one an address can hold. */
  lemma ParseIsClean(hash: string)
    ensures CleanRoute(ParseRoute(hash))
  {
    PartsAreClean(Path(hash));
  }

  /** A route survives being written to the address bar exactly when its ids are clean. */
  lemma RouteRoundTripIff(route: Route)
    ensures ParseRoute(RouteToHash(route)) == route <==> CleanRoute(route)
  {
    if CleanRoute(route) { CleanReadsBack(route); }
    ParseIsClean(RouteToHash(route));
  }

  /** Writing the route of any hash and reading it again changes nothing. */
  lemma AddressIsStable(hash: string)
    ensures ParseRoute(RouteToHash(ParseRoute(hash))) == ParseRoute(hash)
  {
    ParseIsClean(hash);
    CleanReadsBack(ParseRoute(hash));
  }
}
