/** Topic names: the simulator's printer, ingestion's parser and the subscription filter between them. */
module Topic {
  import opened AlertTypes

  const FILTER := "sitewatch/+/+/telemetry"

  function TelemetryTopic(site: string, device: string): string {
    "sitewatch/" + site + "/" + device + "/telemetry"
  }

  predicate SlashFree(s: string) {
    forall i :: 0 <= i < |s| ==> s[i] != '/'
  }

  /** `strings.Split(s, "/")`: always at least one part. */
  function Split(s: string): (parts: seq<string>)
    ensures parts != []
  {
    if s == "" then [""]
    else
      var rest := Split(s[1..]);
      if s[0] == '/' then [""] + rest else [[s[0]] + rest[0]] + rest[1..]
  }

  function ParseTopic(topic: string): Option<(string, string)> {
    var parts := Split(topic);
    if |parts| != 4 || parts[0] != "sitewatch" || parts[3] != "telemetry" then None
    else Some((parts[1], parts[2]))
  }

  /**
    * Matching a filter without '#', as section 4.7.1.3 of OASIS MQTT Version 3.1.1 describes it, character
    * by character: '+' stands for any text without a level separator, the empty one included.
    */
  ghost predicate Matches(filter: string, topic: string) {
    if filter == "" then topic == ""
    else if filter[0] == '+' then
      exists k :: 0 <= k <= |topic| && SlashFree(topic[..k]) && Matches(filter[1..], topic[k..])
    else topic != "" && topic[0] == filter[0] && Matches(filter[1..], topic[1..])
  }

  // ---- Splitting ----

  lemma {:induction false} SplitSlashFree(s: string)
    requires SlashFree(s)
    ensures Split(s) == [s]
  {
    if s != "" {
      SplitSlashFree(s[1..]);
      assert [s[0]] + s[1..] == s;
    }
  }

  lemma {:induction false} SplitFirst(first: string, rest: string)
    requires SlashFree(first)
    ensures Split(first + "/" + rest) == [first] + Split(rest)
  {
    var s := first + "/" + rest;
    if first == "" {
      assert s[1..] == rest;
    } else {
      assert s[1..] == first[1..] + "/" + rest;
      SplitFirst(first[1..], rest);
      assert [first[0]] + first[1..] == first;
    }
  }

  /** The first part contains no separator, and joining it to the text of the others gives the whole back. */
  lemma {:induction false} SplitInverts(s: string) returns (rest: string)
    ensures SlashFree(Split(s)[0])
    ensures |Split(s)| == 1 ==> s == Split(s)[0]
    ensures |Split(s)| > 1 ==> s == Split(s)[0] + "/" + rest && Split(rest) == Split(s)[1..]
  {
    if s == "" {
      rest := "";
    } else if s[0] == '/' {
      rest := s[1..];
      assert s == "" + "/" + rest;
    } else {
      rest := SplitInverts(s[1..]);
      AddFirstChar(s[0], s[1..], rest);
      assert s == [s[0]] + s[1..];
    }
  }

  lemma AddFirstChar(c: char, s: string, rest: string)
    requires c != '/' && SlashFree(Split(s)[0])
    requires |Split(s)| == 1 ==> s == Split(s)[0]
    requires |Split(s)| > 1 ==> s == Split(s)[0] + "/" + rest && Split(rest) == Split(s)[1..]
    ensures var parts := Split([c] + s);
            && SlashFree(parts[0])
            && (|parts| == 1 ==> [c] + s == parts[0])
            && (|parts| > 1 ==> [c] + s == parts[0] + "/" + rest && Split(rest) == parts[1..])
  {
    var first := Split(s)[0];
    assert ([c] + s)[1..] == s;
    assert Split([c] + s) == [[c] + first] + Split(s)[1..];
    if |Split(s)| > 1 {
      assert [c] + (first + "/" + rest) == [c] + first + "/" + rest;
    }
  }

  function Slashes(s: string): nat {
    if s == "" then 0 else Slashes(s[1..]) + if s[0] == '/' then 1 else 0
  }

  lemma {:induction false} PartsCountSlashes(s: string)
    ensures |Split(s)| == Slashes(s) + 1
  {
    if s != "" { PartsCountSlashes(s[1..]); }
  }

  lemma {:induction false} SlashesAdd(a: string, b: string)
    ensures Slashes(a + b) == Slashes(a) + Slashes(b)
  {
    if a == "" {
      assert a + b == b;
    } else {
      SlashesAdd(a[1..], b);
      assert (a + b)[1..] == a[1..] + b;
    }
  }

  lemma {:induction false} SlashFreeHasNone(s: string)
    ensures SlashFree(s) <==> Slashes(s) == 0
  {
    if s != "" {
      SlashFreeHasNone(s[1..]);
      assert forall i :: 0 <= i < |s[1..]| ==> s[1..][i] == s[i + 1];
      assert forall i :: 1 <= i < |s| ==> s[i] == s[1..][i - 1];
    }
  }

  // ---- Printer and parser ----

  lemma ParsePrinted(site: string, device: string)
    requires SlashFree(site) && SlashFree(device)
    ensures ParseTopic(TelemetryTopic(site, device)) == Some((site, device))
  {
    hide Split;
    var afterSite := device + "/" + "telemetry";
    var afterRoot := site + "/" + afterSite;
    Rejoin("sitewatch" + "/" + afterRoot, site, device, afterRoot, afterSite);
    SplitFirst("sitewatch", afterRoot);
    SplitFirst(site, afterSite);
    SplitFirst(device, "telemetry");
    SplitSlashFree("telemetry");
    hide TelemetryTopic;
    var parts := Split(TelemetryTopic(site, device));
    assert parts == ["sitewatch"] + ([site] + ([device] + ["telemetry"]));
    assert |parts| == 4 && parts[0] == "sitewatch" && parts[1] == site && parts[2] == device && parts[3] == "telemetry";
  }

  /** The parser gives back what was printed exactly for ids without a slash; it refuses all others. */
  lemma {:induction false} RoundTrip(site: string, device: string)
    ensures ParseTopic(TelemetryTopic(site, device)) ==
            if SlashFree(site) && SlashFree(device) then Some((site, device)) else None
  {
    if SlashFree(site) && SlashFree(device) {
      ParsePrinted(site, device);
    } else {
      var root, tail := "sitewatch/", "/telemetry";
      var topic := TelemetryTopic(site, device);
      assert topic == root + (site + ("/" + (device + tail)));
      SlashesAdd(root, site + ("/" + (device + tail)));
      SlashesAdd(site, "/" + (device + tail));
      SlashesAdd("/", device + tail);
      SlashesAdd(device, tail);
      LiteralSlashes();
      SlashFreeHasNone(site);
      SlashFreeHasNone(device);
      PartsCountSlashes(topic);
    }
  }

  lemma LiteralSlashes()
    ensures Slashes("sitewatch/") >= 1 && Slashes("/") >= 1 && Slashes("/telemetry") >= 1
  {
    hide Slashes;
    assert "sitewatch/"[9] == '/' && "/"[0] == '/' && "/telemetry"[0] == '/';
    SlashFreeHasNone("sitewatch/");
    SlashFreeHasNone("/");
    SlashFreeHasNone("/telemetry");
  }

  /** Whatever the parser accepts is the printed form of the ids it returns. */
  lemma {:induction false} PrintParsed(topic: string)
    requires ParseTopic(topic).Some?
    ensures var (site, device) := ParseTopic(topic).value;
            SlashFree(site) && SlashFree(device) && TelemetryTopic(site, device) == topic
  {
    var (site, device) := ParseTopic(topic).value;
    var afterRoot := SplitInverts(topic);
    var afterSite := SplitInverts(afterRoot);
    var tail := SplitInverts(afterSite);
    var end := SplitInverts(tail);
    hide Split;
    Rejoin(topic, site, device, afterRoot, afterSite);
  }

  lemma Rejoin(topic: string, site: string, device: string, afterRoot: string, afterSite: string)
    requires topic == "sitewatch" + "/" + afterRoot && afterRoot == site + "/" + afterSite
    requires afterSite == device + "/" + "telemetry"
    ensures topic == TelemetryTopic(site, device)
  {
    assert "sitewatch" + "/" + afterRoot == "sitewatch/" + afterRoot;
    assert "/" + "telemetry" == "/telemetry";
    assert device + "/" + "telemetry" == device + "/telemetry";
    assert "sitewatch/" + (site + "/" + (device + "/telemetry")) == "sitewatch/" + site + "/" + device + "/telemetry";
  }

  // ---- Parser and subscription filter ----

  lemma {:induction false} MatchLiteral(literal: string, filter: string, topic: string)
    requires forall i :: 0 <= i < |literal| ==> literal[i] != '+'
    ensures Matches(literal + filter, topic) <==> literal <= topic && Matches(filter, topic[|literal|..])
  {
    if literal == "" {
      assert literal + filter == filter && topic[0..] == topic;
    } else {
      assert (literal + filter)[1..] == literal[1..] + filter;
      if topic != "" {
        MatchLiteral(literal[1..], filter, topic[1..]);
        assert literal <= topic <==> literal[0] == topic[0] && literal[1..] <= topic[1..];
        if literal <= topic {
          assert topic[1..][|literal| - 1..] == topic[|literal|..];
        }
      }
    }
  }

  /** A topic that starts with a level and a separator. */
  lemma MatchLevel(filter: string, topic: string)
    ensures Matches("+/" + filter, topic) <==>
            exists k :: 0 <= k < |topic| && SlashFree(topic[..k]) && topic[k] == '/' && Matches(filter, topic[k + 1..])
  {
    assert ("+/" + filter)[1..] == "/" + filter;
    forall k | 0 <= k <= |topic|
      ensures Matches("/" + filter, topic[k..]) <==> k < |topic| && topic[k] == '/' && Matches(filter, topic[k + 1..])
    {
      MatchLiteral("/", filter, topic[k..]);
      if k < |topic| {
        assert topic[k..][1..] == topic[k + 1..];
        assert "/" <= topic[k..] <==> topic[k] == '/';
      }
    }
  }

  /** The text of a matched level, and what follows its separator. */
  lemma LevelOf(filter: string, topic: string) returns (level: string, rest: string)
    requires Matches("+/" + filter, topic)
    ensures SlashFree(level) && topic == level + "/" + rest && Matches(filter, rest)
  {
    MatchLevel(filter, topic);
    hide Matches;
    var k :| 0 <= k < |topic| && SlashFree(topic[..k]) && topic[k] == '/' && Matches(filter, topic[k + 1..]);
    level, rest := topic[..k], topic[k + 1..];
    assert topic == topic[..k] + [topic[k]] + topic[k + 1..];
  }

  lemma MatchOneLevel(level: string, filter: string, rest: string)
    requires SlashFree(level) && Matches(filter, rest)
    ensures Matches("+/" + filter, level + "/" + rest)
  {
    var topic := level + "/" + rest;
    MatchLevel(filter, topic);
    assert topic[..|level|] == level && topic[|level| + 1..] == rest;
  }

  const AFTER_ROOT := "+/+/telemetry"
  const AFTER_SITE := "+/telemetry"

  lemma MatchRoot(topic: string)
    ensures Matches(FILTER, topic) <==> "sitewatch/" <= topic && Matches(AFTER_ROOT, topic[|"sitewatch/"|..])
  {
    assert FILTER == "sitewatch/" + AFTER_ROOT;
    MatchLiteral("sitewatch/", AFTER_ROOT, topic);
  }

  lemma MatchTail(topic: string)
    ensures Matches("telemetry", topic) <==> topic == "telemetry"
  {
    assert "telemetry" == "telemetry" + "";
    MatchLiteral("telemetry", "", topic);
  }

  /** The parser accepts exactly the topic names the subscription can deliver, empty levels included. */
  lemma {:induction false} ParserAcceptsSubscription(topic: string)
    ensures ParseTopic(topic).Some? <==> Matches(FILTER, topic)
  {
    if ParseTopic(topic).Some? {
      PrintParsed(topic);
      var (site, device) := ParseTopic(topic).value;
      PrintedMatches(site, device);
    }
    if Matches(FILTER, topic) {
      var site, device := MatchedIsPrinted(topic);
      ParsePrinted(site, device);
    }
  }

  lemma PrintedMatches(site: string, device: string)
    requires SlashFree(site) && SlashFree(device)
    ensures Matches(FILTER, TelemetryTopic(site, device))
  {
    hide Matches;
    var afterSite := device + "/" + "telemetry";
    var afterRoot := site + "/" + afterSite;
    var topic := "sitewatch" + "/" + afterRoot;
    Rejoin(topic, site, device, afterRoot, afterSite);
    MatchTail("telemetry");
    MatchOneLevel(device, "telemetry", "telemetry");
    assert "+/" + "telemetry" == AFTER_SITE;
    MatchOneLevel(site, AFTER_SITE, afterSite);
    assert "+/" + AFTER_SITE == AFTER_ROOT;
    assert topic == "sitewatch/" + afterRoot;
    assert topic[|"sitewatch/"|..] == afterRoot;
    MatchRoot(topic);
  }

  lemma MatchedIsPrinted(topic: string) returns (site: string, device: string)
    requires Matches(FILTER, topic)
    ensures SlashFree(site) && SlashFree(device) && topic == TelemetryTopic(site, device)
  {
    hide Matches;
    MatchRoot(topic);
    var afterRoot := topic[|"sitewatch/"|..];
    assert "+/" + AFTER_SITE == AFTER_ROOT;
    var afterSite, tail;
    site, afterSite := LevelOf(AFTER_SITE, afterRoot);
    assert "+/" + "telemetry" == AFTER_SITE;
    device, tail := LevelOf("telemetry", afterSite);
    MatchTail(tail);
    assert topic == "sitewatch" + "/" + afterRoot;
    Rejoin(topic, site, device, afterRoot, afterSite);
  }
}
