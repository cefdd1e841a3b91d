/**
 * pkg/utils/string_utils.go: conversions with a fallback value, and the
 * keyword classification of a User-Agent string into browser, operating
 * system and device.
 */
module StringUtils {
  import opened Common

  /** StringToInt: strconv.Atoi's value, or the default when it refuses the text. */
  function StringToInt(s: string, defaultValue: int): (r: int)
    ensures Atoi(s).Some? ==> r == Atoi(s).value
    ensures Atoi(s).None? ==> r == defaultValue
    ensures s == "" ==> r == defaultValue
  {
    match Atoi(s)
    case Some(i) => i
    case None => defaultValue
  }

  /** StringToUint: strconv.ParseUint(s, 10, 32), or the default. */
  function StringToUint(s: string, defaultValue: nat): (r: nat)
    ensures |s| > 0 && AllDigits(s) && DigitsValue(s) <= MaxUint32 ==> r == DigitsValue(s)
    ensures !(|s| > 0 && AllDigits(s) && DigitsValue(s) <= MaxUint32) ==> r == defaultValue
  {
    match ParseUint32(s)
    case Some(i) => i
    case None => defaultValue
  }

  /** StringToBool: strconv.ParseBool's value, or the default. */
  function StringToBool(s: string, defaultValue: bool): (r: bool)
    ensures s in {"1", "t", "T", "TRUE", "true", "True"} ==> r
    ensures s in {"0", "f", "F", "FALSE", "false", "False"} ==> !r
    ensures ParseBool(s).None? ==> r == defaultValue
  {
    match ParseBool(s)
    case Some(b) => b
    case None => defaultValue
  }

  // ---------------------------------------------------------------------
  // ParseUserAgent

  /** One rule of a classification chain: a keyword and the value it reports. */
  datatype Rule = Rule(keyword: string, reported: string)

  const BrowserRules: seq<Rule> :=
    [Rule("Chrome", "Chrome"), Rule("Firefox", "Firefox"), Rule("Safari", "Safari"), Rule("Edge", "Edge")]
  const OsRules: seq<Rule> :=
    [Rule("Windows", "Windows"), Rule("Mac", "macOS"), Rule("Linux", "Linux"), Rule("Android", "Android"),
     Rule("iOS", "iOS")]
  const DeviceRules: seq<Rule> := [Rule("Mobile", "Mobile"), Rule("Tablet", "Tablet")]

  /** The label of the first rule whose keyword occurs in `s`, or `fallback`. */
  function FirstMatch(s: string, rules: seq<Rule>, fallback: string): string
  {
    if |rules| == 0 then fallback
    else if Contains(s, rules[0].keyword) then rules[0].reported
    else FirstMatch(s, rules[1..], fallback)
  }

  /**
   * FirstMatch is an if/else chain: it answers the rule with the least index
   * whose keyword occurs, and the fallback exactly when none does.
   */
  lemma {:induction false} FirstMatchIsLeast(s: string, rules: seq<Rule>, fallback: string)
    ensures (forall i :: 0 <= i < |rules| ==> !Contains(s, rules[i].keyword)) ==>
      FirstMatch(s, rules, fallback) == fallback
    ensures forall i :: (0 <= i < |rules| && Contains(s, rules[i].keyword)
      && (forall j :: 0 <= j < i ==> !Contains(s, rules[j].keyword))) ==>
      FirstMatch(s, rules, fallback) == rules[i].reported
    decreases |rules|
  {
    if |rules| > 0 {
      FirstMatchIsLeast(s, rules[1..], fallback);
      forall i | 0 <= i < |rules| && Contains(s, rules[i].keyword)
        && (forall j :: 0 <= j < i ==> !Contains(s, rules[j].keyword))
        ensures FirstMatch(s, rules, fallback) == rules[i].reported
      {
        if i > 0 {
          assert rules[1..][i - 1] == rules[i];
          forall j | 0 <= j < i - 1 ensures !Contains(s, rules[1..][j].keyword) {
            assert rules[1..][j] == rules[j + 1];
          }
        }
      }
      if forall i :: 0 <= i < |rules| ==> !Contains(s, rules[i].keyword) {
        forall j | 0 <= j < |rules| - 1 ensures !Contains(s, rules[1..][j].keyword) {
          assert rules[1..][j] == rules[j + 1];
        }
      }
    }
  }

  /** One step of a chain: the head rule decides, or the rest of the chain does. */
  lemma ChainStep(s: string, rules: seq<Rule>, fallback: string, keyword: string, reported: string)
    requires |rules| > 0 && rules[0] == Rule(keyword, reported)
    ensures FirstMatch(s, rules, fallback) ==
      if Contains(s, keyword) then reported else FirstMatch(s, rules[1..], fallback)
  {
  }

  /** The browser chain written out, one rule after another. */
  lemma BrowserChain(ua: string)
    ensures FirstMatch(ua, BrowserRules, "Unknown") ==
      if Contains(ua, "Chrome") then "Chrome" else if Contains(ua, "Firefox") then "Firefox"
      else if Contains(ua, "Safari") then "Safari" else if Contains(ua, "Edge") then "Edge" else "Unknown"
  {
    var r0 := BrowserRules;
    var r1 := [Rule("Firefox", "Firefox"), Rule("Safari", "Safari"), Rule("Edge", "Edge")];
    var r2 := [Rule("Safari", "Safari"), Rule("Edge", "Edge")];
    var r3 := [Rule("Edge", "Edge")];
    assert r0[1..] == r1 && r1[1..] == r2 && r2[1..] == r3 && r3[1..] == [];
    ChainStep(ua, r0, "Unknown", "Chrome", "Chrome");
    ChainStep(ua, r1, "Unknown", "Firefox", "Firefox");
    ChainStep(ua, r2, "Unknown", "Safari", "Safari");
    ChainStep(ua, r3, "Unknown", "Edge", "Edge");
  }

  /** The operating-system chain written out. */
  lemma OsChain(ua: string)
    ensures FirstMatch(ua, OsRules, "Unknown") ==
      if Contains(ua, "Windows") then "Windows" else if Contains(ua, "Mac") then "macOS"
      else if Contains(ua, "Linux") then "Linux" else if Contains(ua, "Android") then "Android"
      else if Contains(ua, "iOS") then "iOS" else "Unknown"
  {
    var r0 := OsRules;
    var r1 := [Rule("Mac", "macOS"), Rule("Linux", "Linux"), Rule("Android", "Android"), Rule("iOS", "iOS")];
    var r2 := [Rule("Linux", "Linux"), Rule("Android", "Android"), Rule("iOS", "iOS")];
    var r3 := [Rule("Android", "Android"), Rule("iOS", "iOS")];
    var r4 := [Rule("iOS", "iOS")];
    assert r0[1..] == r1 && r1[1..] == r2 && r2[1..] == r3 && r3[1..] == r4 && r4[1..] == [];
    ChainStep(ua, r0, "Unknown", "Windows", "Windows");
    ChainStep(ua, r1, "Unknown", "Mac", "macOS");
    ChainStep(ua, r2, "Unknown", "Linux", "Linux");
    ChainStep(ua, r3, "Unknown", "Android", "Android");
    ChainStep(ua, r4, "Unknown", "iOS", "iOS");
  }

  /** The device chain written out. */
  lemma DeviceChain(ua: string)
    ensures FirstMatch(ua, DeviceRules, "Desktop") ==
      if Contains(ua, "Mobile") then "Mobile" else if Contains(ua, "Tablet") then "Tablet" else "Desktop"
  {
    var r0 := DeviceRules;
    var r1 := [Rule("Tablet", "Tablet")];
    assert r0[1..] == r1 && r1[1..] == [];
    ChainStep(ua, r0, "Desktop", "Mobile", "Mobile");
    ChainStep(ua, r1, "Desktop", "Tablet", "Tablet");
  }

  const RawKey := "raw"
  const BrowserKey := "browser"
  const OsKey := "os"
  const DeviceKey := "device"

  /** The map ParseUserAgent builds: the input under raw and the three classifications. */
  function UserAgentInfo(userAgent: string): map<string, string> {
    map[RawKey := userAgent, BrowserKey := FirstMatch(userAgent, BrowserRules, "Unknown"),
        OsKey := FirstMatch(userAgent, OsRules, "Unknown"),
        DeviceKey := FirstMatch(userAgent, DeviceRules, "Desktop")]
  }

  /** The result always has exactly the four keys, with raw holding the input unchanged. */
  lemma UserAgentInfoShape(userAgent: string)
    ensures UserAgentInfo(userAgent).Keys == {RawKey, BrowserKey, OsKey, DeviceKey}
    ensures UserAgentInfo(userAgent)[RawKey] == userAgent
    ensures UserAgentInfo(userAgent)[BrowserKey] in {"Chrome", "Firefox", "Safari", "Edge", "Unknown"}
    ensures UserAgentInfo(userAgent)[OsKey] in {"Windows", "macOS", "Linux", "Android", "iOS", "Unknown"}
    ensures UserAgentInfo(userAgent)[DeviceKey] in {"Mobile", "Tablet", "Desktop"}
  {
    BrowserChain(userAgent);
    OsChain(userAgent);
    DeviceChain(userAgent);
  }

  /**
   * ParseUserAgent: the result map is filled entry by entry, each
   * classification by its own if/else chain over strings.Contains.
   */
  method ParseUserAgent(userAgent: string) returns (result: map<string, string>)
    ensures result == UserAgentInfo(userAgent)
  {
    result := map[];
    result := result[RawKey := userAgent];

    if Contains(userAgent, "Chrome") {
      result := result[BrowserKey := "Chrome"];
    } else if Contains(userAgent, "Firefox") {
      result := result[BrowserKey := "Firefox"];
    } else if Contains(userAgent, "Safari") {
      result := result[BrowserKey := "Safari"];
    } else if Contains(userAgent, "Edge") {
      result := result[BrowserKey := "Edge"];
    } else {
      result := result[BrowserKey := "Unknown"];
    }
    BrowserChain(userAgent);
    assert result == map[RawKey := userAgent][BrowserKey := FirstMatch(userAgent, BrowserRules, "Unknown")];

    ghost var withBrowser := result;
    OsChain(userAgent);
    if Contains(userAgent, "Windows") {
      result := result[OsKey := "Windows"];
    } else if Contains(userAgent, "Mac") {
      result := result[OsKey := "macOS"];
    } else if Contains(userAgent, "Linux") {
      result := result[OsKey := "Linux"];
    } else if Contains(userAgent, "Android") {
      result := result[OsKey := "Android"];
    } else if Contains(userAgent, "iOS") {
      result := result[OsKey := "iOS"];
    } else {
      result := result[OsKey := "Unknown"];
    }
    assert result == withBrowser[OsKey := FirstMatch(userAgent, OsRules, "Unknown")];

    ghost var withOs := result;
    DeviceChain(userAgent);
    if Contains(userAgent, "Mobile") {
      result := result[DeviceKey := "Mobile"];
    } else if Contains(userAgent, "Tablet") {
      result := result[DeviceKey := "Tablet"];
    } else {
      result := result[DeviceKey := "Desktop"];
    }
    assert result == withOs[DeviceKey := FirstMatch(userAgent, DeviceRules, "Desktop")];
  }

  /** The chains are tried in order, so an Edge user agent, which also names Chrome, is classed as Chrome. */
  lemma ChromeShadowsEdge(ua: string)
    requires Contains(ua, "Chrome") && Contains(ua, "Edge")
    ensures FirstMatch(ua, BrowserRules, "Unknown") == "Chrome"
  {
    FirstMatchIsLeast(ua, BrowserRules, "Unknown");
    assert BrowserRules[0].keyword == "Chrome";
  }

  /** Likewise an Android user agent that names Linux, and no Windows or Mac, is classed as Linux. */
  lemma LinuxShadowsAndroid(ua: string)
    requires Contains(ua, "Linux") && Contains(ua, "Android")
    requires !Contains(ua, "Windows") && !Contains(ua, "Mac")
    ensures FirstMatch(ua, OsRules, "Unknown") == "Linux"
  {
    FirstMatchIsLeast(ua, OsRules, "Unknown");
    assert OsRules[0].keyword == "Windows" && OsRules[1].keyword == "Mac" && OsRules[2].keyword == "Linux";
  }

  /** The labels come from the rule tables or the fallback; nothing else is reported. */
  lemma {:induction false} FirstMatchIsALabel(s: string, rules: seq<Rule>, fallback: string)
    ensures FirstMatch(s, rules, fallback) == fallback
      || exists i :: 0 <= i < |rules| && FirstMatch(s, rules, fallback) == rules[i].reported
    decreases |rules|
  {
    if |rules| > 0 && !Contains(s, rules[0].keyword) {
      FirstMatchIsALabel(s, rules[1..], fallback);
      if FirstMatch(s, rules, fallback) != fallback {
        var i :| 0 <= i < |rules[1..]| && FirstMatch(s, rules[1..], fallback) == rules[1..][i].reported;
        assert rules[1..][i] == rules[i + 1];
      }
    }
  }
}
