/**
 * The text handler of the tracking bot: a chat message is trimmed, the first
 * token matching /\b([A-Za-z0-9]{32,})\b/ is taken as a contract address, an
 * address starting with "0x" is dropped, an initial quote is fetched, the
 * address is inserted into the watchlist, a group-specific announcement is
 * sent and monitoring is scheduled.
 */
module Ingestion {
  import opened Wrappers
  import opened Watchlist

  /** The `{32,}` of the address pattern. */
  const MinAddressLength: nat := 32

  /** The delay before the first monitoring iteration (the handler's setTimeout). */
  const StartDelay: nat := 3000

  // ---------------------------------------------------------------- trimming

  /** The characters String.prototype.trim removes: ECMAScript WhiteSpace and LineTerminator. */
  predicate IsJsWhitespace(c: char) {
    c == '\t' || c == '\n' || c == '\U{000B}' || c == '\U{000C}' || c == '\r' || c == ' '
    || c == '\U{00A0}' || c == '\U{1680}' || ('\U{2000}' <= c <= '\U{200A}')
    || c == '\U{2028}' || c == '\U{2029}' || c == '\U{202F}' || c == '\U{205F}'
    || c == '\U{3000}' || c == '\U{FEFF}'
  }

  function TrimStart(s: string): (r: string)
    ensures |r| <= |s| && r == s[|s| - |r|..]
    ensures forall k | 0 <= k < |s| - |r| :: IsJsWhitespace(s[k])
    ensures r != [] ==> !IsJsWhitespace(r[0])
  {
    if s != [] && IsJsWhitespace(s[0]) then TrimStart(s[1..]) else s
  }

  function TrimEnd(s: string): (r: string)
    ensures |r| <= |s| && r == s[..|r|]
    ensures forall k | |r| <= k < |s| :: IsJsWhitespace(s[k])
    ensures r != [] ==> !IsJsWhitespace(r[|r| - 1])
  {
    if s != [] && IsJsWhitespace(s[|s| - 1]) then TrimEnd(s[..|s| - 1]) else s
  }

  /** r is s[i..i + |r|] and everything of s outside that slice is whitespace. */
  ghost predicate IsStrippedSlice(s: string, r: string, i: int) {
    && 0 <= i <= |s| - |r|
    && r == s[i..i + |r|]
    && (forall k | 0 <= k < i :: IsJsWhitespace(s[k]))
    && (forall k | i + |r| <= k < |s| :: IsJsWhitespace(s[k]))
  }

  /** String.prototype.trim: whitespace is stripped from the front, then from the back. */
  function Trim(s: string): (r: string)
    ensures |r| <= |s|
    ensures r != [] ==> !IsJsWhitespace(r[0]) && !IsJsWhitespace(r[|r| - 1])
  {
    var front := TrimStart(s);
    var r := TrimEnd(front);
    assert r != [] ==> r[0] == front[0];
    r
  }

  /** The trimmed string is a slice of s with only whitespace on either side of it. */
  lemma TrimIsStrippedSlice(s: string)
    ensures exists i :: IsStrippedSlice(s, Trim(s), i)
  {
    var front := TrimStart(s);
    var r := TrimEnd(front);
    var i := |s| - |front|;
    assert r == s[i..i + |r|] by {
      assert front == s[i..] && r == front[..|r|];
      assert s[i..][..|r|] == s[i..i + |r|];
    }
    forall k | i + |r| <= k < |s|
      ensures IsJsWhitespace(s[k])
    {
      assert s[k] == front[k - i];
    }
    assert Trim(s) == r && IsStrippedSlice(s, r, i);
  }

  /** Trimming leaves nothing exactly when s is all whitespace. */
  lemma TrimBlank(s: string)
    ensures Trim(s) == [] <==> forall k | 0 <= k < |s| :: IsJsWhitespace(s[k])
  {
    TrimIsStrippedSlice(s);
    var i :| IsStrippedSlice(s, Trim(s), i);
    if Trim(s) != [] {
      assert Trim(s)[0] == s[i];
    }
  }

  /** `ctx.message.text?.trim()` followed by `if (!message) return`: the non-blank message, if any. */
  function Message(text: Option<string>): (m: Option<string>)
    ensures m.Some? ==> text.Some? && m.value == Trim(text.value) && m.value != []
    ensures m.None? <==> text.None? || forall k | 0 <= k < |text.value| :: IsJsWhitespace(text.value[k])
  {
    match text
    case None => None
    case Some(t) =>
      TrimBlank(t);
      if Trim(t) == [] then None else Some(Trim(t))
  }

  // ------------------------------------------------------ address extraction

  predicate IsAlnum(c: char) {
    'A' <= c <= 'Z' || 'a' <= c <= 'z' || '0' <= c <= '9'
  }

  /** `\w` of a JavaScript regular expression without the u flag. */
  predicate IsWordChar(c: char) {
    IsAlnum(c) || c == '_'
  }

  /**
   * s[a..b] is a match of /\b([A-Za-z0-9]{32,})\b/: at least 32 ASCII letters
   * and digits, and a word boundary on both sides (a string end or a character
   * that is neither alphanumeric nor '_').  Because the run must end at a
   * boundary, a greedy match cannot stop inside a longer run.
   */
  predicate IsAddressRun(s: string, a: int, b: int) {
    && 0 <= a <= b <= |s|
    && b - a >= MinAddressLength
    && (forall k | a <= k < b :: IsAlnum(s[k]))
    && (a == 0 || !IsWordChar(s[a - 1]))
    && (b == |s| || !IsWordChar(s[b]))
  }

  /** The match String.prototype.match returns: the address run with the least start. */
  ghost predicate IsFirstAddressRun(s: string, a: int, b: int) {
    IsAddressRun(s, a, b) && forall a', b' | 0 <= a' < a :: !IsAddressRun(s, a', b')
  }

  /** The end of the maximal alphanumeric run starting at i. */
  function RunEnd(s: string, i: nat): (r: nat)
    requires i <= |s|
    ensures i <= r <= |s|
    ensures forall k | i <= k < r :: IsAlnum(s[k])
    ensures r < |s| ==> !IsAlnum(s[r])
    decreases |s| - i
  {
    if i < |s| && IsAlnum(s[i]) then RunEnd(s, i + 1) else i
  }

  /** A match that starts at a ends where the alphanumeric run from a ends. */
  lemma MatchEndsAtRunEnd(s: string, a: nat, b: int)
    requires a <= |s|
    ensures IsAddressRun(s, a, b) ==> b == RunEnd(s, a)
  {
    var j := RunEnd(s, a);
    assert j < |s| ==> !IsAlnum(s[j]);
  }

  /** No match starts in [i, j] when the run from i ends at j and is not itself a match. */
  lemma NoMatchInRun(s: string, i: nat, j: nat)
    requires i < j <= |s| && j == RunEnd(s, i)
    requires !IsAddressRun(s, i, j)
    ensures forall a, b | i <= a <= j :: !IsAddressRun(s, a, b)
  {
    forall a, b | i <= a <= j
      ensures !IsAddressRun(s, a, b)
    {
      MatchEndsAtRunEnd(s, a, b);
      assert i < a <= j ==> IsAlnum(s[a - 1]);
    }
  }

  /** The regular-expression search from position i onwards. */
  function FindRunFrom(s: string, i: nat): (r: Option<(nat, nat)>)
    requires i <= |s|
    ensures r.Some? ==> i <= r.value.0 && IsAddressRun(s, r.value.0, r.value.1)
    ensures r.Some? ==> forall a, b | i <= a < r.value.0 :: !IsAddressRun(s, a, b)
    ensures r.None? ==> forall a, b | i <= a :: !IsAddressRun(s, a, b)
    decreases |s| - i
  {
    if i == |s| then None
    else if !IsAlnum(s[i]) then FindRunFrom(s, i + 1)
    else
      var j := RunEnd(s, i);
      if j - i >= MinAddressLength && (i == 0 || !IsWordChar(s[i - 1])) && (j == |s| || !IsWordChar(s[j])) then
        Some((i, j))
      else
        NoMatchInRun(s, i, j);
        FindRunFrom(s, j)
  }

  /** `message.match(/\b([A-Za-z0-9]{32,})\b/)?.[1]`. */
  function ExtractAddress(message: string): (r: Option<string>)
    ensures r.None? <==> forall a, b :: !IsAddressRun(message, a, b)
    ensures r.Some? ==> exists a, b :: IsFirstAddressRun(message, a, b) && r.value == message[a..b]
  {
    match FindRunFrom(message, 0)
    case None => None
    case Some((a, b)) =>
      assert IsFirstAddressRun(message, a, b);
      Some(message[a..b])
  }

  /** The first match is unique. */
  lemma FirstAddressRunUnique(s: string, a: int, b: int, a': int, b': int)
    requires IsFirstAddressRun(s, a, b) && IsFirstAddressRun(s, a', b')
    ensures a == a' && b == b'
  {
    MatchEndsAtRunEnd(s, a, b);
    MatchEndsAtRunEnd(s, a', b');
  }

  // ------------------------------------------------------------ the 0x filter

  datatype Classification = NoAddress | Excluded(ca: string) | Candidate(ca: string)

  /** Extraction followed by `ca.startsWith('0x')` (case-sensitive). */
  function Classify(message: string): (c: Classification)
    ensures c.NoAddress? <==> forall a, b :: !IsAddressRun(message, a, b)
    ensures !c.NoAddress? ==> exists a, b :: IsFirstAddressRun(message, a, b) && c.ca == message[a..b]
    ensures c.Excluded? ==> "0x" <= c.ca
    ensures c.Candidate? ==> !("0x" <= c.ca)
  {
    match ExtractAddress(message)
    case None => NoAddress
    case Some(ca) => if "0x" <= ca then Excluded(ca) else Candidate(ca)
  }

  /**
   * The first match alone decides the message: a "0x" address drops the whole
   * message even when a later token would qualify, and only the lower-case
   * prefix "0x" is excluded.
   */
  lemma {:induction false} FirstMatchDecides(message: string, a: int, b: int)
    requires IsFirstAddressRun(message, a, b)
    ensures Classify(message) == if message[a] == '0' && message[a + 1] == 'x'
                                 then Excluded(message[a..b]) else Candidate(message[a..b])
  {
    var a', b' :| IsFirstAddressRun(message, a', b') && Classify(message).ca == message[a'..b'];
    FirstAddressRunUnique(message, a, b, a', b');
  }

  // ------------------------------------------------------------ the templates

  /** The RED_GROUPS, YELLOW_GROUPS and GREEN_GROUPS lists. */
  datatype GroupConfig = GroupConfig(red: seq<string>, yellow: seq<string>, green: seq<string>) {
    /** ALL_GROUPS. */
    function AllGroups(): seq<string> {
      red + yellow + green
    }
  }

  datatype Template = RedTemplate | YellowTemplate | GreenTemplate | PlaceholderTemplate

  /** Red is tested first, then yellow, then green; any other group gets the placeholder. */
  function SelectTemplate(cfg: GroupConfig, group: string): (t: Template)
    ensures t == RedTemplate <==> group in cfg.red
    ensures t == YellowTemplate <==> group !in cfg.red && group in cfg.yellow
    ensures t == GreenTemplate <==> group !in cfg.red && group !in cfg.yellow && group in cfg.green
    ensures t == PlaceholderTemplate <==> group !in cfg.AllGroups()
  {
    if group in cfg.red then RedTemplate
    else if group in cfg.yellow then YellowTemplate
    else if group in cfg.green then GreenTemplate
    else PlaceholderTemplate
  }

  function TemplateText(t: Template): string {
    match t
    case RedTemplate => "Red group template"
    case YellowTemplate => "Yellow group template"
    case GreenTemplate => "Green group template"
    case PlaceholderTemplate => "Placeholder template"
  }

  /** The message posted when tracking starts: it names the address and ends with the template. */
  function Announcement(ca: string, t: Template): (a: string)
    ensures "Tracking started for CA: " + ca <= a
    ensures |TemplateText(t)| <= |a| && a[|a| - |TemplateText(t)|..] == TemplateText(t)
  {
    var a := "Tracking started for CA: " + ca + ". " + TemplateText(t);
    assert a == ("Tracking started for CA: " + ca) + (". " + TemplateText(t));
    a
  }

  /** `ctx.chat?.title ?? 'Unknown'`: the chat title, or "Unknown" when there is none. */
  function GroupName(title: Option<string>): (name: string)
    ensures title.Some? ==> name == title.value
    ensures name == "Unknown" <==> title.None? || title.value == "Unknown"
  {
    match title
    case Some(name) => name
    case None => "Unknown"
  }

  // --------------------------------------------------------------- the handler

  datatype Sighting =
    | Blank
    | Dropped(reason: Classification)
    | NoInitialPrice(ca: string)
    | AnnounceFailed(ca: string, initialPrice: real)
    | Tracking(ca: string, initialPrice: real, announcement: string, startDelay: nat)

  /**
   * The `bot.on('text', ...)` handler.  `fetch` stands for the quote gateway,
   * `announceOk` for whether the "Tracking started" message was sent (a failed
   * send throws out of the handler before monitoring is scheduled).
   */
  method OnText(db: WatchlistDb, cfg: GroupConfig, text: Option<string>, title: Option<string>,
                fetch: string -> Option<real>, announceOk: bool) returns (s: Sighting)
    modifies db
    ensures Message(text).None? ==> s == Blank && db.rows == old(db.rows)
    ensures Message(text).Some? ==>
      match Classify(Message(text).value)
      case NoAddress => s == Dropped(NoAddress) && db.rows == old(db.rows)
      case Excluded(ca) => s == Dropped(Excluded(ca)) && db.rows == old(db.rows)
      case Candidate(ca) =>
        match fetch(ca)
        case None => s == NoInitialPrice(ca) && db.rows == old(db.rows)
        case Some(p) =>
          && db.rows == InsertOrIgnore(old(db.rows), ca, p, GroupName(title))
          && (ca in old(db.rows) ==> db.rows == old(db.rows))
          && s == if announceOk
                  then Tracking(ca, p, Announcement(ca, SelectTemplate(cfg, GroupName(title))), StartDelay)
                  else AnnounceFailed(ca, p)
  {
    var message := Message(text);
    var groupName := GroupName(title);
    if message.None? {
      return Blank;
    }
    var c := Classify(message.value);
    if !c.Candidate? {
      return Dropped(c);
    }
    var ca := c.ca;
    var initialPrice := fetch(ca);
    if initialPrice.None? {
      return NoInitialPrice(ca);
    }
    db.AddToWatchlist(ca, initialPrice.value, groupName);
    var template := SelectTemplate(cfg, groupName);
    if !announceOk {
      return AnnounceFailed(ca, initialPrice.value);
    }
    s := Tracking(ca, initialPrice.value, Announcement(ca, template), StartDelay);
  }
}

/** A worked example: a 42-character "0x" token is found and excluded. */
module IngestionExample {
  import opened Ingestion

  predicate IsAlnumString(s: string) {
    forall k | 0 <= k < |s| :: IsAlnum(s[k])
  }

  lemma {:induction false} AlnumConcat(x: string, y: string)
    requires IsAlnumString(x) && IsAlnumString(y)
    ensures IsAlnumString(x + y)
  {
    forall k | 0 <= k < |x + y|
      ensures IsAlnum((x + y)[k])
    {
      if k < |x| {
        assert (x + y)[k] == x[k];
      } else {
        assert (x + y)[k] == y[k - |x|];
      }
    }
  }

  lemma {:induction false} AlnumInside(pre: string, x: string, post: string)
    requires IsAlnumString(x)
    ensures forall k | |pre| <= k < |pre| + |x| :: IsAlnum((pre + x + post)[k])
  {
    forall k | |pre| <= k < |pre| + |x|
      ensures IsAlnum((pre + x + post)[k])
    {
      assert (pre + x + post)[k] == x[k - |pre|];
    }
  }

  const HexRun: string := "ABCDEF0123456789"

  /** 0xABCDEF0123456789ABCDEF0123456789ABCDEF01 */
  const ZeroXToken: string := "0x" + HexRun + HexRun + "ABCDEF01"

  /** Long enough and alphanumeric, yet the message "buy 0x... now" is dropped. */
  lemma ZeroXMessageIsExcluded()
    ensures Classify("buy " + ZeroXToken + " now") == Excluded(ZeroXToken)
  {
    var m := "buy " + ZeroXToken + " now";
    assert IsAlnumString(HexRun) && IsAlnumString("0x") && IsAlnumString("ABCDEF01");
    AlnumConcat("0x", HexRun);
    AlnumConcat("0x" + HexRun, HexRun);
    AlnumConcat("0x" + HexRun + HexRun, "ABCDEF01");
    AlnumInside("buy ", ZeroXToken, " now");
    assert |m| == 50 && m[3] == ' ' && m[46] == ' ';
    assert m[4..46] == ZeroXToken;
    assert IsAddressRun(m, 4, 46);
    forall a, b | 0 <= a < 4
      ensures !IsAddressRun(m, a, b)
    {
      assert !IsAlnum(m[3]);
    }
    FirstMatchDecides(m, 4, 46);
  }
}
