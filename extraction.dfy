/**
 * `extractCode` of the Home page: the first fenced block of the model's
 * answer, found with the regular expression /```(?:\w+)?\n?([\s\S]*?)```/
 * (no flags), trimmed; the whole answer, trimmed, when the expression does
 * not match; "" for the empty answer.
 *
 * A backtick is neither a word character nor a newline, so the backtracking
 * search reduces to a deterministic scan (Scan below). The lemmas at the end
 * prove that the scan reports exactly the match a leftmost, backtracking
 * regular-expression engine reports (IsReportedMatch).
 */
module Extraction {
  import opened Wrappers
  import opened JsString

  /** `\w` of a regular expression without the `u` and `i` flags: [A-Za-z0-9_]. */
  predicate IsWordChar(c: char) {
    ('A' <= c <= 'Z') || ('a' <= c <= 'z') || ('0' <= c <= '9') || c == '_'
  }

  /** Three backticks start at index i of s. */
  predicate FenceAt(s: string, i: int) {
    0 <= i && i + 3 <= |s| && s[i] == '`' && s[i + 1] == '`' && s[i + 2] == '`'
  }

  /** The leftmost fence at or after `from`. */
  function FindFence(s: string, from: nat): (r: Option<nat>)
    decreases |s| - from
    ensures r.Some? ==> from <= r.value && FenceAt(s, r.value)
    ensures forall i :: from <= i && (r.None? || i < r.value) ==> !FenceAt(s, i)
  {
    if from + 3 > |s| then None
    else if FenceAt(s, from) then Some(from)
    else FindFence(s, from + 1)
  }

  /** The end of the longest run of word characters that starts at i. */
  function WordRunEnd(s: string, i: nat): (j: nat)
    requires i <= |s|
    decreases |s| - i
    ensures i <= j <= |s|
    ensures forall k :: i <= k < j ==> IsWordChar(s[k])
    ensures j == |s| || !IsWordChar(s[j])
  {
    if i < |s| && IsWordChar(s[i]) then WordRunEnd(s, i + 1) else i
  }

  /**
   * Where a match of the expression lies in the input: the opening fence at
   * `open`, a language tag of `tagLen` word characters, `newline` (0 or 1)
   * newline characters, and the closing fence at `close`; the captured group
   * is input[BodyStart()..close].
   */
  datatype Match = Match(open: nat, tagLen: nat, newline: nat, close: nat)
  {
    function BodyStart(): nat { open + 3 + tagLen + newline }
  }

  /**
   * The deterministic scan: the first fence, the longest tag after it, one
   * newline if there is one, and the first fence from there on.
   */
  function Scan(s: string): (m: Option<Match>)
    ensures m.Some? ==> m.value.BodyStart() <= m.value.close <= |s|
  {
    match FindFence(s, 0)
    case None => None
    case Some(o) =>
      var t := WordRunEnd(s, o + 3);
      var n := if t < |s| && s[t] == '\n' then 1 else 0;
      match FindFence(s, t + n)
      case None => None
      case Some(c) => Some(Match(o, t - (o + 3), n, c))
  }

  /** `extractCode(response)` for a string response. */
  function ExtractCode(response: string): (code: string)
    ensures IsTrimmed(code)
    ensures |code| <= |response|
  {
    if response == "" then ""
    else match Scan(response)
      case None => Trim(response)
      case Some(m) => Trim(response[m.BodyStart()..m.close])
  }

  // ---------------------------------------------------------------------
  // The semantics of the regular expression

  /**
   * One way /```(?:\w+)?\n?([\s\S]*?)```/ can match s: the opening fence at
   * p, k word characters (k = 0 is the empty alternative of the optional
   * group), n newline characters (0 or 1), and the closing fence at e.
   */
  ghost predicate IsMatch(s: string, p: int, k: int, n: int, e: int) {
    && FenceAt(s, p) && 0 <= k && (n == 0 || n == 1)
    && p + 3 + k + n <= e && FenceAt(s, e)
    && (forall j :: p + 3 <= j < p + 3 + k ==> IsWordChar(s[j]))
    && (n == 1 ==> s[p + 3 + k] == '\n')
  }

  /**
   * The order in which a backtracking engine tries matches: lower start
   * first (the leftmost match); at the same start, the longer tag first (the
   * optional group and `\w+` are greedy); then the newline taken before it is
   * skipped (`\n?` is greedy); then the shorter capture first (`*?` is lazy).
   */
  ghost predicate TriedFirst(p: int, k: int, n: int, e: int, p': int, k': int, n': int, e': int) {
    || p < p'
    || (p == p' && k > k')
    || (p == p' && k == k' && n > n')
    || (p == p' && k == k' && n == n' && e <= e')
  }

  /** The match the engine reports: the first one it tries that succeeds. */
  ghost predicate IsReportedMatch(s: string, p: int, k: int, n: int, e: int) {
    && IsMatch(s, p, k, n, e)
    && forall p', k', n', e' :: IsMatch(s, p', k', n', e') ==> TriedFirst(p, k, n, e, p', k', n', e')
  }

  // ---------------------------------------------------------------------
  // The scan agrees with the regular expression

  /** The scan finds the reported match, and finds none exactly when the expression does not match. */
  lemma ScanIsReportedMatch(s: string)
    ensures Scan(s).Some? ==>
              var m := Scan(s).value;
              IsReportedMatch(s, m.open, m.tagLen, m.newline, m.close)
    ensures Scan(s).None? ==> forall p, k, n, e :: !IsMatch(s, p, k, n, e)
  {
  }

  /** Two reported matches are the same match: the engine's choice is unique. */
  lemma ReportedMatchUnique(s: string, p: int, k: int, n: int, e: int, p': int, k': int, n': int, e': int)
    requires IsReportedMatch(s, p, k, n, e) && IsReportedMatch(s, p', k', n', e')
    ensures p == p' && k == k' && n == n' && e == e'
  {
  }

  /** The scan finds every reported match. */
  lemma ScanFindsReportedMatch(s: string, p: int, k: int, n: int, e: int)
    requires IsReportedMatch(s, p, k, n, e)
    ensures p >= 0 && k >= 0 && n >= 0 && e >= 0 && Scan(s) == Some(Match(p, k, n, e))
  {
    ScanIsReportedMatch(s);
    var m := Scan(s).value;
    ReportedMatchUnique(s, p, k, n, e, m.open, m.tagLen, m.newline, m.close);
  }

  /** extractCode trims what lies between the fences the scan finds. */
  lemma ExtractCodeOfScan(s: string, m: Match, captured: string)
    requires Scan(s) == Some(m) && s[m.BodyStart()..m.close] == captured
    ensures ExtractCode(s) == Trim(captured)
  {
  }

  /** When the expression matches, extractCode returns the trimmed captured group of the reported match. */
  lemma ExtractCodeOfReportedMatch(s: string, p: int, k: int, n: int, e: int)
    requires IsReportedMatch(s, p, k, n, e)
    ensures 0 <= p + 3 + k + n <= e <= |s|
    ensures ExtractCode(s) == Trim(s[p + 3 + k + n..e])
  {
    ScanFindsReportedMatch(s, p, k, n, e);
    ExtractCodeOfScan(s, Match(p, k, n, e), s[p + 3 + k + n..e]);
  }

  /** When the expression does not match, extractCode returns the whole input trimmed (so "" for ""). */
  lemma ExtractCodeWithoutMatch(s: string)
    requires forall p, k, n, e :: !IsMatch(s, p, k, n, e)
    ensures ExtractCode(s) == Trim(s)
  {
    ScanIsReportedMatch(s);
  }

  /** `t` has no three backticks in a row. */
  predicate NoFence(t: string) {
    forall i :: 0 <= i < |t| ==> !FenceAt(t, i)
  }

  /** No fence starts inside x + "``" where s continues x with "``". */
  lemma NoFenceInSlice(s: string, start: nat, x: string)
    requires start + |x| + 2 <= |s| && s[start..start + |x| + 2] == x + "``"
    requires NoFence(x + "``")
    ensures forall i :: start <= i < start + |x| ==> !FenceAt(s, i)
  {
    forall i | start <= i < start + |x| ensures !FenceAt(s, i) {
      assert !FenceAt(x + "``", i - start);
      assert s[i] == (x + "``")[i - start];
      assert s[i + 1] == (x + "``")[i - start + 1];
      assert s[i + 2] == (x + "``")[i - start + 2];
    }
  }

  /** The scan's steps, when the text around the first block is known index by index. */
  lemma ScanOfFirstBlock(s: string, o: nat, t: nat, n: nat, c: nat)
    requires o + 3 <= t < |s| && FenceAt(s, o) && FenceAt(s, c)
    requires forall i :: 0 <= i < o ==> !FenceAt(s, i)
    requires forall j :: o + 3 <= j < t ==> IsWordChar(s[j])
    requires !IsWordChar(s[t]) && n == (if s[t] == '\n' then 1 else 0) && t + n <= c
    requires forall i :: t + n <= i < c ==> !FenceAt(s, i)
    ensures Scan(s) == Some(Match(o, t - (o + 3), n, c))
  {
  }

  /** What extractCode returns for the first block, when the text around it is known index by index. */
  lemma ExtractCodeOfFirstBlockAt(s: string, o: nat, t: nat, c: nat, body: string)
    requires o + 3 <= t <= c && c + 3 <= |s| && FenceAt(s, o) && FenceAt(s, c)
    requires forall i :: 0 <= i < o ==> !FenceAt(s, i)
    requires forall j :: o + 3 <= j < t ==> IsWordChar(s[j])
    requires !IsWordChar(s[t]) && s[t..c] == body
    requires forall i :: t <= i < c ==> !FenceAt(s, i)
    ensures ExtractCode(s) == Trim(body)
  {
    var n := if s[t] == '\n' then 1 else 0;
    assert n == 1 ==> t < c;
    var m := Match(o, t - (o + 3), n, c);
    assert Scan(s) == Some(m) by { ScanOfFirstBlock(s, o, t, n, c); }
    assert s[m.BodyStart()..m.close] == body[n..];
    ExtractCodeOfScan(s, m, body[n..]);
    TrimOfBodyRest(body, n);
  }

  /**
   * The first fenced block is what is returned: for
   * before + "```" + tag + body + "```" + after, with no fence inside the text
   * before the block or inside its body, a tag of word characters and a body
   * that does not begin with one, the result is the body trimmed, whatever
   * further blocks `after` holds.
   */
  lemma ExtractCodeOfFirstBlock(before: string, tag: string, body: string, after: string)
    requires NoFence(before + "``") && NoFence(body + "``")
    requires forall i :: 0 <= i < |tag| ==> IsWordChar(tag[i])
    requires body == [] || !IsWordChar(body[0])
    ensures ExtractCode(before + "```" + tag + body + "```" + after) == Trim(body)
  {
    var s := before + "```" + tag + body + "```" + after;
    var o := |before|;
    var t := o + 3 + |tag|;
    var c := t + |body|;
    assert s[..o + 2] == before + "``";
    NoFenceInSlice(s, 0, before);
    assert forall j :: o + 3 <= j < t ==> s[j] == tag[j - (o + 3)];
    assert s[t] == (body + "```")[0];
    assert s[t..c + 2] == body + "``";
    NoFenceInSlice(s, t, body);
    assert s[t..c] == body;
    ExtractCodeOfFirstBlockAt(s, o, t, c, body);
  }

  /** Cutting the newline that follows the tag off the body does not change the trimmed body. */
  lemma TrimOfBodyRest(body: string, n: nat)
    requires n <= 1 && n <= |body| && (n == 1 ==> body[0] == '\n')
    ensures Trim(body[n..]) == Trim(body)
  {
  }
}
