/** The user-agent tool's four classifiers (`guessBrowser`, `guessOS`, `guessDevice`,
    `isMobile`) and the report that shows them. Each is a first-match-wins chain of
    substring tests returning a label. */
module UserAgent {
  import opened Strings

  /** One row of a first-match table: the name it yields and the tokens, any one of
      which selects it; `ignoreCase` compares ASCII letters without regard to case. */
  datatype Rule = Rule(name: string, tokens: seq<string>, ignoreCase: bool)

  /** Some token of `rule` occurs in `ua`. */
  ghost predicate Matches(ua: string, rule: Rule)
  {
    exists k :: 0 <= k < |rule.tokens| &&
      if rule.ignoreCase then ContainsIgnoringCase(ua, rule.tokens[k]) else Contains(ua, rule.tokens[k])
  }

  /** Executable test of `Matches`, trying the tokens from the left. */
  function AnyTokenOccurs(ua: string, tokens: seq<string>, ignoreCase: bool): (b: bool)
    ensures b <==> Matches(ua, Rule("", tokens, ignoreCase))
  {
    if tokens == [] then false
    else
      var here := if ignoreCase then IncludesIgnoringCase(ua, tokens[0]) else Includes(ua, tokens[0]);
      var rest := AnyTokenOccurs(ua, tokens[1..], ignoreCase);
      assert forall k :: 1 <= k < |tokens| ==> tokens[k] == tokens[1..][k - 1];
      here || rest
  }

  /** The label of the first rule of `rules` that matches `ua`, or `default`. */
  function FirstMatch(rules: seq<Rule>, ua: string, default: string): (name: string)
  {
    if rules == [] then default
    else if AnyTokenOccurs(ua, rules[0].tokens, rules[0].ignoreCase) then rules[0].name
    else FirstMatch(rules[1..], ua, default)
  }

  /** First match wins: the result is the label of the earliest matching rule, and
      the default exactly when no rule matches. */
  lemma {:induction false} FirstMatchIsEarliest(rules: seq<Rule>, ua: string, default: string, i: nat)
    requires i < |rules| && Matches(ua, rules[i])
    requires forall j :: 0 <= j < i ==> !Matches(ua, rules[j])
    ensures FirstMatch(rules, ua, default) == rules[i].name
    decreases i
  {
    var r0 := rules[0];
    assert AnyTokenOccurs(ua, r0.tokens, r0.ignoreCase) <==> Matches(ua, r0);
    if i > 0 {
      FirstMatchIsEarliest(rules[1..], ua, default, i - 1);
    }
  }

  lemma {:induction false} FirstMatchDefault(rules: seq<Rule>, ua: string, default: string)
    requires forall j :: 0 <= j < |rules| ==> !Matches(ua, rules[j])
    ensures FirstMatch(rules, ua, default) == default
  {
    if rules != [] {
      var r0 := rules[0];
      assert AnyTokenOccurs(ua, r0.tokens, r0.ignoreCase) <==> Matches(ua, r0);
      FirstMatchDefault(rules[1..], ua, default);
    }
  }

  /** The browser table, in the order `guessBrowser` tests it. */
  const BrowserRules: seq<Rule> := [
    Rule("Chrome", ["Chrome"], false),
    Rule("Firefox", ["Firefox"], false),
    Rule("Safari", ["Safari"], false),
    Rule("Edge", ["Edge"], false),
    Rule("Opera", ["Opera"], false),
    Rule("Internet Explorer", ["MSIE", "Trident/"], false)
  ]

  /** The operating-system table, in the order `guessOS` tests it. */
  const OSRules: seq<Rule> := [
    Rule("Windows", ["Windows"], false),
    Rule("macOS", ["Mac OS"], false),
    Rule("Linux", ["Linux"], false),
    Rule("Android", ["Android"], false),
    Rule("iOS", ["iOS", "iPhone"], false)
  ]

  /** The alternatives of the case-insensitive mobile pattern. */
  const MobileTokens: seq<string> := ["Mobile", "Android", "iPhone", "iPad", "iPod"]

  /** The device table: a case-sensitive "Mobile", then "Tablet", then the mobile pattern. */
  const DeviceRules: seq<Rule> := [
    Rule("Mobile", ["Mobile"], false),
    Rule("Tablet", ["Tablet"], false),
    Rule("Mobile", MobileTokens, true)
  ]

  function GuessBrowser(ua: string): (r: string)
    ensures r == "Chrome" <==> Contains(ua, "Chrome")
    ensures r == "Firefox" <==> !Contains(ua, "Chrome") && Contains(ua, "Firefox")
    ensures r == "Safari" <==> !Contains(ua, "Chrome") && !Contains(ua, "Firefox") && Contains(ua, "Safari")
    ensures r == "Edge" <==>
              !Contains(ua, "Chrome") && !Contains(ua, "Firefox") && !Contains(ua, "Safari") && Contains(ua, "Edge")
    ensures r == "Opera" <==>
              !Contains(ua, "Chrome") && !Contains(ua, "Firefox") && !Contains(ua, "Safari") && !Contains(ua, "Edge")
              && Contains(ua, "Opera")
    ensures r == "Internet Explorer" <==>
              !Contains(ua, "Chrome") && !Contains(ua, "Firefox") && !Contains(ua, "Safari") && !Contains(ua, "Edge")
              && !Contains(ua, "Opera") && (Contains(ua, "MSIE") || Contains(ua, "Trident/"))
    ensures r == "Unknown" <==>
              !Contains(ua, "Chrome") && !Contains(ua, "Firefox") && !Contains(ua, "Safari") && !Contains(ua, "Edge")
              && !Contains(ua, "Opera") && !Contains(ua, "MSIE") && !Contains(ua, "Trident/")
  {
    if Includes(ua, "Chrome") then "Chrome"
    else if Includes(ua, "Firefox") then "Firefox"
    else if Includes(ua, "Safari") then "Safari"
    else if Includes(ua, "Edge") then "Edge"
    else if Includes(ua, "Opera") then "Opera"
    else if Includes(ua, "MSIE") || Includes(ua, "Trident/") then "Internet Explorer"
    else "Unknown"
  }

  function GuessOS(ua: string): (r: string)
    ensures r == "Windows" <==> Contains(ua, "Windows")
    ensures r == "macOS" <==> !Contains(ua, "Windows") && Contains(ua, "Mac OS")
    ensures r == "Linux" <==> !Contains(ua, "Windows") && !Contains(ua, "Mac OS") && Contains(ua, "Linux")
    ensures r == "Android" <==>
              !Contains(ua, "Windows") && !Contains(ua, "Mac OS") && !Contains(ua, "Linux") && Contains(ua, "Android")
    ensures r == "iOS" <==>
              !Contains(ua, "Windows") && !Contains(ua, "Mac OS") && !Contains(ua, "Linux") && !Contains(ua, "Android")
              && (Contains(ua, "iOS") || Contains(ua, "iPhone"))
    ensures r == "Unknown" <==>
              !Contains(ua, "Windows") && !Contains(ua, "Mac OS") && !Contains(ua, "Linux") && !Contains(ua, "Android")
              && !Contains(ua, "iOS") && !Contains(ua, "iPhone")
  {
    if Includes(ua, "Windows") then "Windows"
    else if Includes(ua, "Mac OS") then "macOS"
    else if Includes(ua, "Linux") then "Linux"
    else if Includes(ua, "Android") then "Android"
    else if Includes(ua, "iOS") || Includes(ua, "iPhone") then "iOS"
    else "Unknown"
  }

  /** The case-insensitive test `/Mobile|Android|iPhone|iPad|iPod/i`: some alternative
      occurs somewhere in `ua`, ASCII letters compared without regard to case. */
  function IsMobile(ua: string): (b: bool)
    ensures b <==> exists k :: 0 <= k < |MobileTokens| && ContainsIgnoringCase(ua, MobileTokens[k])
  {
    AnyTokenOccurs(ua, MobileTokens, true)
  }

  /** The case-sensitive "Mobile" is one of the mobile pattern's matches. */
  lemma MobileTokenIsMobile(ua: string)
    ensures Contains(ua, "Mobile") ==> IsMobile(ua)
  {
    if Contains(ua, "Mobile") {
      ContainsIgnoresCase(ua, "Mobile");
    }
  }

  function GuessDevice(ua: string): (r: string)
    ensures r == "Desktop" <==> !IsMobile(ua) && !Contains(ua, "Tablet")
    ensures r == "Tablet" <==> !Contains(ua, "Mobile") && Contains(ua, "Tablet")
    ensures r == "Mobile" <==> Contains(ua, "Mobile") || (!Contains(ua, "Tablet") && IsMobile(ua))
  {
    MobileTokenIsMobile(ua);
    if Includes(ua, "Mobile") then "Mobile"
    else if Includes(ua, "Tablet") then "Tablet"
    else if IsMobile(ua) then "Mobile"
    else "Desktop"
  }

  /** A case-sensitive rule with one token matches exactly when that token occurs. */
  lemma MatchesOneToken(ua: string, rule: Rule)
    requires |rule.tokens| == 1 && !rule.ignoreCase
    ensures Matches(ua, rule) <==> Contains(ua, rule.tokens[0])
  {
    if Contains(ua, rule.tokens[0]) {
      assert 0 < |rule.tokens|;
    }
  }

  /** A case-sensitive rule with two tokens matches exactly when either occurs. */
  lemma MatchesTwoTokens(ua: string, rule: Rule)
    requires |rule.tokens| == 2 && !rule.ignoreCase
    ensures Matches(ua, rule) <==> Contains(ua, rule.tokens[0]) || Contains(ua, rule.tokens[1])
  {
  }

  /** The browser if-chain is the first-match reading of its table. */
  lemma BrowserIsFirstMatch(ua: string)
    ensures GuessBrowser(ua) == FirstMatch(BrowserRules, ua, "Unknown")
  {
    var rs := BrowserRules;
    MatchesOneToken(ua, rs[0]);
    MatchesOneToken(ua, rs[1]);
    MatchesOneToken(ua, rs[2]);
    MatchesOneToken(ua, rs[3]);
    MatchesOneToken(ua, rs[4]);
    MatchesTwoTokens(ua, rs[5]);
    var r := GuessBrowser(ua);
    if r == "Chrome" {
      FirstMatchIsEarliest(rs, ua, "Unknown", 0);
    } else if r == "Firefox" {
      FirstMatchIsEarliest(rs, ua, "Unknown", 1);
    } else if r == "Safari" {
      FirstMatchIsEarliest(rs, ua, "Unknown", 2);
    } else if r == "Edge" {
      FirstMatchIsEarliest(rs, ua, "Unknown", 3);
    } else if r == "Opera" {
      FirstMatchIsEarliest(rs, ua, "Unknown", 4);
    } else if r == "Internet Explorer" {
      FirstMatchIsEarliest(rs, ua, "Unknown", 5);
    } else {
      FirstMatchDefault(rs, ua, "Unknown");
    }
  }

  /** The operating-system if-chain is the first-match reading of its table. */
  lemma OSIsFirstMatch(ua: string)
    ensures GuessOS(ua) == FirstMatch(OSRules, ua, "Unknown")
  {
    var rs := OSRules;
    MatchesOneToken(ua, rs[0]);
    MatchesOneToken(ua, rs[1]);
    MatchesOneToken(ua, rs[2]);
    MatchesOneToken(ua, rs[3]);
    MatchesTwoTokens(ua, rs[4]);
    var r := GuessOS(ua);
    if r == "Windows" {
      FirstMatchIsEarliest(rs, ua, "Unknown", 0);
    } else if r == "macOS" {
      FirstMatchIsEarliest(rs, ua, "Unknown", 1);
    } else if r == "Linux" {
      FirstMatchIsEarliest(rs, ua, "Unknown", 2);
    } else if r == "Android" {
      FirstMatchIsEarliest(rs, ua, "Unknown", 3);
    } else if r == "iOS" {
      FirstMatchIsEarliest(rs, ua, "Unknown", 4);
    } else {
      FirstMatchDefault(rs, ua, "Unknown");
    }
  }

  /** The mobile pattern is the third row of the device table. */
  lemma MobilePatternIsRule(ua: string)
    ensures Matches(ua, DeviceRules[2]) <==> IsMobile(ua)
  {
    assert DeviceRules[2].tokens == MobileTokens && DeviceRules[2].ignoreCase;
    assert AnyTokenOccurs(ua, MobileTokens, true) <==> Matches(ua, Rule("", MobileTokens, true));
  }

  /** The device if-chain is the first-match reading of its table. */
  lemma DeviceIsFirstMatch(ua: string)
    ensures GuessDevice(ua) == FirstMatch(DeviceRules, ua, "Desktop")
  {
    var rs := DeviceRules;
    MatchesOneToken(ua, rs[0]);
    MatchesOneToken(ua, rs[1]);
    MobilePatternIsRule(ua);
    if Contains(ua, "Mobile") {
      FirstMatchIsEarliest(rs, ua, "Desktop", 0);
    } else if Contains(ua, "Tablet") {
      FirstMatchIsEarliest(rs, ua, "Desktop", 1);
    } else if IsMobile(ua) {
      FirstMatchIsEarliest(rs, ua, "Desktop", 2);
    } else {
      FirstMatchDefault(rs, ua, "Desktop");
    }
  }

  /** What the user-agent tool displays; `mobile` is the Yes/No line. */
  datatype Report = Report(browser: string, os: string, device: string, mobile: bool)

  /** An empty input shows nothing; any other input gets a full report. */
  function ParseUserAgent(ua: string): (r: Option)
    ensures r.None? <==> ua == ""
    ensures r.Some? ==> (r.report.device == "Desktop" ==> !r.report.mobile)
    ensures r.Some? ==> (r.report.device == "Mobile" ==> r.report.mobile)
    ensures r.Some? ==> r.report.browser == FirstMatch(BrowserRules, ua, "Unknown")
    ensures r.Some? ==> r.report.os == FirstMatch(OSRules, ua, "Unknown")
    ensures r.Some? ==> r.report.device == GuessDevice(ua) && r.report.mobile == IsMobile(ua)
    ensures r.Some? ==> r.report.device == FirstMatch(DeviceRules, ua, "Desktop")
  {
    if ua == "" then None
    else
      BrowserIsFirstMatch(ua);
      OSIsFirstMatch(ua);
      DeviceIsFirstMatch(ua);
      MobileTokenIsMobile(ua);
      Some(Report(GuessBrowser(ua), GuessOS(ua), GuessDevice(ua), IsMobile(ua)))
  }

  datatype Option = None | Some(report: Report)
}
