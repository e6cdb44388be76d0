/**
 Addresses by their characters: what the names are, and what an address that names nothing reads as.
 */
module Addresses {
  import opened Text
  import opened Markdown
  import opened Router

  // ---------------------------------------------------------------- what is ignored

  lemma {:induction false} FindIgnoresLater(s: string, c: char, later: string)
    requires c !in s
    ensures Find(s + ([c] + later), c) == |s|
  {
    if s == "" {
      assert s + ([c] + later) == [c] + later;
    } else {
      assert (s + ([c] + later))[1..] == s[1..] + ([c] + later);
      FindIgnoresLater(s[1..], c, later);
    }
  }

  lemma StripKeepsLater(hash: string, later: string)
    requires '?' !in hash
    ensures StripHash(hash + ("?" + later)) == StripHash(hash) + ("?" + later) && '?' !in StripHash(hash)
  {
    var s := hash + ("?" + later);
    assert forall i :: 0 <= i < |hash| ==> s[i] == hash[i];
    if "#/" <= hash {
      assert s[2..] == hash[2..] + ("?" + later);
    } else if "#" <= hash {
      assert |hash| > 1 ==> s[1] == hash[1];
      assert |hash| == 1 ==> s[1] == '?';
      assert s[1..] == hash[1..] + ("?" + later);
    } else {
      assert hash != "" ==> s[0] == hash[0];
      assert hash == "" ==> s[0] == '?';
    }
  }

  /** A query is no part of the address. */
  lemma QueryIsIgnored(hash: string, query: string)
    requires '?' !in hash
    ensures ParseRoute(hash + ("?" + query)) == ParseRoute(hash)
  {
    var path := StripHash(hash);
    StripKeepsLater(hash, query);
    FindIgnoresLater(path, '?', query);
    FindAbsent(path, '?');
    assert (path + ("?" + query))[..|path|] == path && path[..|path|] == path;
  }

  // ---------------------------------------------------------------- what names nothing

  lemma BareAddressIsHome()
    ensures ParseRoute("") == ParseRoute("#") == ParseRoute("#/") == Home
  {
    assert "#"[1..] == "" && "#/"[2..] == "";
  }

  lemma FirstPart(first: string, rest: string)
    requires CleanPart(first) && '?' !in rest
    ensures Parts(Path("#/" + first)) == [first]
    ensures Parts(Path("#/" + (first + ("/" + rest)))) == [first] + Parts(rest)
  {
    ReadsOne(first);
    PathOf(first + ("/" + rest));
    PartThen(first, rest);
  }

  predicate IsName(s: string) {
    s in ["meetings", "record", "library", "notes", "tasks", "tickets", "people", "ask", "trash", "agent", "jobs",
          "connectors", "overlay", "help", "settings", "about"]
  }

  lemma OtherPartsAreHome(parts: seq<string>)
    requires parts != [] && !IsName(parts[0])
    ensures ReadParts(parts) == Home
  {
  }

  /** An address whose first part is no name is the home page, whatever follows. */
  lemma UnknownIsHome(first: string, rest: string)
    requires CleanPart(first) && !IsName(first) && '?' !in rest
    ensures ParseRoute("#/" + first) == Home
    ensures ParseRoute("#/" + (first + ("/" + rest))) == Home
  {
    FirstPart(first, rest);
    OtherPartsAreHome([first]);
    OtherPartsAreHome([first] + Parts(rest));
  }

  lemma MeetingParts(parts: seq<string>)
    requires parts != [] && parts[0] == "meetings"
    ensures ReadParts(parts) == ReadMeeting(parts)
  {
  }

  /** A meeting address without an id is the library. */
  lemma MeetingsIsLibrary(name: string)
    requires name == "meetings"
    ensures ParseRoute("#/" + name) == ParseRoute("#/" + (name + ("/" + ""))) == Library
  {
    FirstPart(name, "");
    assert Parts("") == [] && [name] + [] == [name];
    MeetingParts([name]);
  }

  /** Without a tab it shows the transcript, */
  lemma MeetingWithoutTab(name: string, id: string)
    requires name == "meetings" && CleanPart(id)
    ensures ParseRoute("#/" + (name + ("/" + id))) == Meeting(id, Transcript)
  {
    FirstPart(name, id);
    OnePart(id);
    MeetingParts([name] + [id]);
  }

  lemma OtherTab(tab: string)
    requires tab !in ["transcript", "summary", "notes", "ask"]
    ensures TabNamed(tab) == None
  {
  }

  /** and with one that is none. */
  lemma MeetingWithOtherTab(name: string, id: string, tab: string)
    requires name == "meetings" && CleanPart(id) && CleanPart(tab)
    requires tab !in ["transcript", "summary", "notes", "ask"]
    ensures ParseRoute("#/" + (name + ("/" + (id + ("/" + tab))))) == Meeting(id, Transcript)
  {
    ReadsThree(name, id, tab);
    MeetingParts([name, id, tab]);
    OtherTab(tab);
  }

  lemma OtherHelp(section: string)
    requires section !in ["docs", "support", "whats-new", "shortcuts"]
    ensures HelpNamed(section) == None
  {
  }

  lemma OtherSettings(section: string)
    requires section !in ["appearance", "recording", "transcription", "models", "summaries", "assistant", "tools",
                          "search", "speakers"]
    ensures SettingsNamed(section) == None
  {
  }

  lemma HelpParts(parts: seq<string>)
    requires |parts| == 2 && parts[0] == "help"
    ensures ReadParts(parts) == Help(HelpNamed(parts[1]))
  {
  }

  lemma SettingsParts(parts: seq<string>)
    requires |parts| == 2 && parts[0] == "settings"
    ensures ReadParts(parts) == Settings(SettingsNamed(parts[1]))
  {
  }

  /** Help with a section that is none opens without one, */
  lemma HelpWithOtherSection(name: string, section: string)
    requires name == "help" && CleanPart(section) && section !in ["docs", "support", "whats-new", "shortcuts"]
    ensures ParseRoute("#/" + (name + ("/" + section))) == Help(None)
  {
    OtherHelp(section);
    FirstPart(name, section);
    OnePart(section);
    HelpParts([name] + [section]);
  }

  /** and so do the settings. */
  lemma SettingsWithOtherSection(name: string, section: string)
    requires name == "settings" && CleanPart(section)
    requires section !in ["appearance", "recording", "transcription", "models", "summaries", "assistant", "tools",
                          "search", "speakers"]
    ensures ParseRoute("#/" + (name + ("/" + section))) == Settings(None)
  {
    OtherSettings(section);
    FirstPart(name, section);
    OnePart(section);
    SettingsParts([name] + [section]);
  }

  // ---------------------------------------------------------------- the names

  /** The pages and their addresses, */
  lemma PageAddressesAre()
    ensures RouteToHash(Home) == "#/" && RouteToHash(Record) == "#/" + "record"
    ensures RouteToHash(Library) == "#/" + "library" && RouteToHash(Tasks) == "#/" + "tasks"
    ensures RouteToHash(Tickets) == "#/" + "tickets" && RouteToHash(Ask) == "#/" + "ask"
    ensures RouteToHash(Trash) == "#/" + "trash" && RouteToHash(Agent) == "#/" + "agent"
  {
  }

  lemma MorePageAddressesAre()
    ensures RouteToHash(Jobs) == "#/" + "jobs" && RouteToHash(Connectors) == "#/" + "connectors"
    ensures RouteToHash(Overlay) == "#/" + "overlay" && RouteToHash(About) == "#/" + "about"
    ensures RouteToHash(Notes(None)) == "#/" + "notes" && RouteToHash(People(None)) == "#/" + "people"
    ensures RouteToHash(Help(None)) == "#/" + "help" && RouteToHash(Settings(None)) == "#/" + "settings"
  {
  }

  /** those of one note, person or meeting, */
  lemma ItemAddressesAre(id: string)
    requires id != ""
    ensures RouteToHash(Notes(Some(id))) == "#/" + "notes" + "/" + id
    ensures RouteToHash(People(Some(id))) == "#/" + "people" + "/" + id
    ensures RouteToHash(Meeting(id, Transcript)) == "#/meetings/" + id + "/" + "transcript"
    ensures RouteToHash(Meeting(id, Summary)) == "#/meetings/" + id + "/" + "summary"
    ensures RouteToHash(Meeting(id, MeetingNotes)) == "#/meetings/" + id + "/" + "notes"
    ensures RouteToHash(Meeting(id, MeetingAsk)) == "#/meetings/" + id + "/" + "ask"
  {
  }

  lemma HelpAddressesAre()
    ensures RouteToHash(Help(Some(Docs))) == "#/" + "help" + "/" + "docs"
    ensures RouteToHash(Help(Some(Support))) == "#/" + "help" + "/" + "support"
    ensures RouteToHash(Help(Some(WhatsNew))) == "#/" + "help" + "/" + "whats-new"
    ensures RouteToHash(Help(Some(Shortcuts))) == "#/" + "help" + "/" + "shortcuts"
  {
  }

  /** and those of the sections. */
  lemma SettingsNamesAre()
    ensures SettingsName(Appearance) == "appearance" && SettingsName(Recording) == "recording"
    ensures SettingsName(Transcription) == "transcription" && SettingsName(Models) == "models"
    ensures SettingsName(Summaries) == "summaries" && SettingsName(Assistant) == "assistant"
    ensures SettingsName(Tools) == "tools" && SettingsName(Search) == "search"
    ensures SettingsName(Speakers) == "speakers"
  {
  }

  lemma SettingsAddressIs(section: SettingsSection)
    ensures RouteToHash(Settings(Some(section))) == "#/" + "settings" + "/" + SettingsName(section)
  {
    SettingsNameReadsBack(section);
  }
}
