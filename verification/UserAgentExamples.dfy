/** Three real user-agent strings run through the classifiers. Because the first
    listed token wins, an Android phone is reported as Linux, an iPhone as macOS and
    the EdgeHTML browser as Chrome. Each string is written as a list of short pieces
    so that the facts about its characters stay cheap to check. */
module UserAgentExamples {
  import opened Strings
  import opened UserAgent

  /** Chrome on an Android phone. */
  const AndroidPhoneParts: seq<string> := [
    "Mozilla/5.0 (", "Linux", "; ", "Android", " 11; ", "Pixel 5) ", "AppleWebKit/", "537.36 ",
    "(KHTML, ", "like Gecko) ", "Chrome", "/91.0.", "4472.124 ", "Mobile", " Safari/", "537.36"
  ]

  /** Safari on an iPhone. */
  const IPhoneParts: seq<string> := [
    "Mozilla/5.0 (", "iPhone", "; CPU ", "iPhone OS ", "15_4 like ", "Mac OS", " X) ", "AppleWebKit/",
    "605.1.15 ", "(KHTML, ", "like Gecko) ", "Version/", "15.4 ", "Mobile", "/15E148 ", "Safari", "/604.1"
  ]

  /** The EdgeHTML browser on Windows 10, which also names Chrome and Safari. */
  const LegacyEdgeParts: seq<string> := [
    "Mozilla/5.0 (", "Windows", " NT 10.0; ", "Win64; x64) ", "AppleWebKit/", "537.36 ", "(KHTML, ",
    "like Gecko) ", "Chrome", "/70.0.", "3538.102 ", "Safari/", "537.36 ", "Edge", "/18.19582"
  ]

  // Characters missing from the example strings, checked piece by piece.

  lemma NoLowerWInAndroidPhone()
    ensures 'w' !in Concat(AndroidPhoneParts)
  {
    var ps := AndroidPhoneParts;
    assert 'w' !in ps[0] && 'w' !in ps[1] && 'w' !in ps[2] && 'w' !in ps[3] && 'w' !in ps[4] && 'w' !in ps[5];
    assert 'w' !in ps[6] && 'w' !in ps[7] && 'w' !in ps[8] && 'w' !in ps[9] && 'w' !in ps[10] && 'w' !in ps[11];
    assert 'w' !in ps[12] && 'w' !in ps[13] && 'w' !in ps[14] && 'w' !in ps[15];
    AbsentFromPieces(ps, 'w');
  }

  lemma NoCapitalOInAndroidPhone()
    ensures 'O' !in Concat(AndroidPhoneParts)
  {
    var ps := AndroidPhoneParts;
    assert 'O' !in ps[0] && 'O' !in ps[1] && 'O' !in ps[2] && 'O' !in ps[3] && 'O' !in ps[4] && 'O' !in ps[5];
    assert 'O' !in ps[6] && 'O' !in ps[7] && 'O' !in ps[8] && 'O' !in ps[9] && 'O' !in ps[10] && 'O' !in ps[11];
    assert 'O' !in ps[12] && 'O' !in ps[13] && 'O' !in ps[14] && 'O' !in ps[15];
    AbsentFromPieces(ps, 'O');
  }

  lemma NoLowerDInIPhone()
    ensures 'd' !in Concat(IPhoneParts)
  {
    var ps := IPhoneParts;
    assert 'd' !in ps[0] && 'd' !in ps[1] && 'd' !in ps[2] && 'd' !in ps[3] && 'd' !in ps[4] && 'd' !in ps[5];
    assert 'd' !in ps[6] && 'd' !in ps[7] && 'd' !in ps[8] && 'd' !in ps[9] && 'd' !in ps[10] && 'd' !in ps[11];
    assert 'd' !in ps[12] && 'd' !in ps[13] && 'd' !in ps[14] && 'd' !in ps[15] && 'd' !in ps[16];
    AbsentFromPieces(ps, 'd');
  }

  lemma NoLowerMInIPhone()
    ensures 'm' !in Concat(IPhoneParts)
  {
    var ps := IPhoneParts;
    assert 'm' !in ps[0] && 'm' !in ps[1] && 'm' !in ps[2] && 'm' !in ps[3] && 'm' !in ps[4] && 'm' !in ps[5];
    assert 'm' !in ps[6] && 'm' !in ps[7] && 'm' !in ps[8] && 'm' !in ps[9] && 'm' !in ps[10] && 'm' !in ps[11];
    assert 'm' !in ps[12] && 'm' !in ps[13] && 'm' !in ps[14] && 'm' !in ps[15] && 'm' !in ps[16];
    AbsentFromPieces(ps, 'm');
  }

  lemma NoCapitalFInIPhone()
    ensures 'F' !in Concat(IPhoneParts)
  {
    var ps := IPhoneParts;
    assert 'F' !in ps[0] && 'F' !in ps[1] && 'F' !in ps[2] && 'F' !in ps[3] && 'F' !in ps[4] && 'F' !in ps[5];
    assert 'F' !in ps[6] && 'F' !in ps[7] && 'F' !in ps[8] && 'F' !in ps[9] && 'F' !in ps[10] && 'F' !in ps[11];
    assert 'F' !in ps[12] && 'F' !in ps[13] && 'F' !in ps[14] && 'F' !in ps[15] && 'F' !in ps[16];
    AbsentFromPieces(ps, 'F');
  }

  /** Linux is tested before Android, so an Android phone, whose user agent also
      names Linux, is reported as Linux; it is still a mobile Chrome. */
  lemma AndroidPhoneReportsLinux()
    ensures Contains(Concat(AndroidPhoneParts), "Android")
    ensures GuessOS(Concat(AndroidPhoneParts)) == "Linux"
    ensures GuessBrowser(Concat(AndroidPhoneParts)) == "Chrome"
    ensures GuessDevice(Concat(AndroidPhoneParts)) == "Mobile"
  {
    AndroidPhoneTokens();
  }

  /** The tokens the Android string does and does not contain. */
  lemma AndroidPhoneTokens()
    ensures var u := Concat(AndroidPhoneParts);
            && !Contains(u, "Windows") && !Contains(u, "Mac OS")
            && Contains(u, "Linux") && Contains(u, "Android") && Contains(u, "Chrome") && Contains(u, "Mobile")
  {
    var ps := AndroidPhoneParts;
    NoLowerWInAndroidPhone();
    MissingCharExcludes(Concat(ps), "Windows", 'w');
    NoCapitalOInAndroidPhone();
    MissingCharExcludes(Concat(ps), "Mac OS", 'O');
    PieceOccurs(ps, 1);
    PieceOccurs(ps, 3);
    PieceOccurs(ps, 10);
    PieceOccurs(ps, 13);
  }

  /** "Mac OS" is tested before "iPhone", so an iPhone, whose user agent says
      "like Mac OS X", is reported as macOS; "Safari" is its first browser token. */
  lemma IPhoneReportsMacOS()
    ensures Contains(Concat(IPhoneParts), "iPhone")
    ensures GuessOS(Concat(IPhoneParts)) == "macOS"
    ensures GuessBrowser(Concat(IPhoneParts)) == "Safari"
    ensures GuessDevice(Concat(IPhoneParts)) == "Mobile"
  {
    IPhoneTokens();
  }

  /** The tokens the iPhone string does and does not contain. */
  lemma IPhoneTokens()
    ensures var u := Concat(IPhoneParts);
            && !Contains(u, "Windows") && !Contains(u, "Chrome") && !Contains(u, "Firefox")
            && Contains(u, "iPhone") && Contains(u, "Mac OS") && Contains(u, "Mobile") && Contains(u, "Safari")
  {
    var ps := IPhoneParts;
    NoLowerDInIPhone();
    MissingCharExcludes(Concat(ps), "Windows", 'd');
    NoLowerMInIPhone();
    MissingCharExcludes(Concat(ps), "Chrome", 'm');
    NoCapitalFInIPhone();
    MissingCharExcludes(Concat(ps), "Firefox", 'F');
    PieceOccurs(ps, 1);
    PieceOccurs(ps, 5);
    PieceOccurs(ps, 13);
    PieceOccurs(ps, 15);
  }

  /** "Chrome" is tested before "Edge", so the EdgeHTML browser is reported as Chrome. */
  lemma LegacyEdgeReportsChrome()
    ensures Contains(Concat(LegacyEdgeParts), "Edge")
    ensures GuessBrowser(Concat(LegacyEdgeParts)) == "Chrome"
    ensures GuessOS(Concat(LegacyEdgeParts)) == "Windows"
  {
    var ps := LegacyEdgeParts;
    PieceOccurs(ps, 1);
    PieceOccurs(ps, 8);
    PieceOccurs(ps, 13);
  }
}
