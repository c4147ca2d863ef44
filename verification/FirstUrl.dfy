/**
  `first_url` of `src/link_preview.rs`: the first link in a text, with sentence punctuation and
  unbalanced closing brackets trimmed off its end until nothing more comes off.
*/
module FirstUrl {
  import opened Wrappers
  import opened Text

  predicate Stops(c: char) { IsWhitespace(c) || c == '<' || c == '>' || c == '"' }

  predicate IsPunctuation(c: char) {
    c == '.' || c == ',' || c == ';' || c == ':' || c == '!' || c == '?' || c == '\''
  }

  function Count(s: string, c: char): nat {
    if s == [] then 0 else Count(s[..|s| - 1], c) + if s[|s| - 1] == c then 1 else 0
  }

  function Last(s: string): char
    requires s != []
  {
    s[|s| - 1]
  }

  function WithoutPunctuation(s: string): (r: string)
    ensures r <= s
  {
    if s != [] && IsPunctuation(Last(s)) then WithoutPunctuation(s[..|s| - 1]) else s
  }

  /** Ends in a closing bracket that more than closes what was opened. */
  predicate Overclosed(s: string) {
    s != []
    && ((Last(s) == ')' && Count(s, '(') < Count(s, ')')) || (Last(s) == ']' && Count(s, '[') < Count(s, ']')))
  }

  /** One turn of the loop: all trailing punctuation, then at most one bracket. */
  function TrimTurn(url: string): (r: string)
    ensures r <= url
  {
    var trimmed := WithoutPunctuation(url);
    if Overclosed(trimmed) then trimmed[..|trimmed| - 1] else trimmed
  }

  function Trimmed(url: string): string
    decreases |url|
  {
    var turn := TrimTurn(url);
    assert turn == url[..|turn|];
    if |turn| == |url| then url else Trimmed(turn)
  }

  /** The nearer of the two schemes. */
  function Start(text: string): Option<nat> {
    var https := Find(text, "https://", 0);
    var http := Find(text, "http://", 0);
    if https.None? then http
    else if http.None? then https
    else if https.value <= http.value then https else http
  }

  function Run(s: string, i: nat): (j: nat)
    requires i <= |s|
    ensures i <= j <= |s|
    ensures forall k :: i <= k < j ==> !Stops(s[k])
    ensures j < |s| ==> Stops(s[j])
    decreases |s| - i
  {
    if i == |s| || Stops(s[i]) then i else Run(s, i + 1)
  }

  /** What stands between the first `://` and the second, or the end. */
  function HostPart(url: string): string {
    var mark := Find(url, "://", 0);
    if mark.None? then []
    else
      var from := mark.value + 3;
      var again := Find(url, "://", from);
      if again.None? then url[from..] else url[from..again.value]
  }

  function UrlIn(text: string): Option<string> {
    var start := Start(text);
    if start.None? then None
    else
      var url := Trimmed(text[start.value..Run(text, start.value)]);
      if HostPart(url) == [] then None else Some(url)
  }

  method FindUrl(text: string) returns (r: Option<string>)
    ensures r == UrlIn(text)
  {
    var start := Start(text);
    if start.None? {
      return None;
    }
    var end := start.value;
    while end < |text| && !Stops(text[end])
      invariant start.value <= end <= |text|
      invariant Run(text, end) == Run(text, start.value)
    {
      end := end + 1;
    }
    var url := text[start.value..end];
    while true
      invariant Trimmed(url) == Trimmed(text[start.value..end])
      decreases |url|
    {
      var trimmed := TrimTurn(url);
      if trimmed == url {
        break;
      }
      url := trimmed;
    }
    r := if HostPart(url) == [] then None else Some(url);
  }

  // ---------------------------------------------------------------- trimming

  /** Nothing should come off the end: no sentence punctuation, and no bracket that closes more than the text
      has opened. */
  predicate Settled(s: string) {
    s == []
    || (&& Last(s) !in ".,;:!?'"
        && (Last(s) == ')' ==> multiset(s)[')'] <= multiset(s)['('])
        && (Last(s) == ']' ==> multiset(s)[']'] <= multiset(s)['[']))
  }

  lemma {:induction false} CountIsMultiplicity(s: string, c: char)
    ensures Count(s, c) == multiset(s)[c]
  {
    if s != [] {
      CountIsMultiplicity(s[..|s| - 1], c);
      assert s == s[..|s| - 1] + [Last(s)];
    }
  }

  lemma SettledMeans(s: string)
    ensures Settled(s) <==> s == [] || (!IsPunctuation(Last(s)) && !Overclosed(s))
  {
    CountIsMultiplicity(s, '(');
    CountIsMultiplicity(s, ')');
    CountIsMultiplicity(s, '[');
    CountIsMultiplicity(s, ']');
  }

  lemma {:induction false} PunctuationGone(s: string)
    ensures WithoutPunctuation(s) == [] || !IsPunctuation(Last(WithoutPunctuation(s)))
    ensures forall p :: p <= s && Settled(p) ==> p <= WithoutPunctuation(s)
  {
    if s != [] && IsPunctuation(Last(s)) {
      var shorter := s[..|s| - 1];
      PunctuationGone(shorter);
      forall p | p <= s && Settled(p) ensures p <= WithoutPunctuation(s) {
        SettledMeans(p);
        assert p != s;
        assert p <= shorter;
      }
    }
  }

  lemma TurnKeepsSettled(url: string)
    ensures TrimTurn(url) == url <==> Settled(url)
    ensures forall p :: p <= url && Settled(p) ==> p <= TrimTurn(url)
  {
    PunctuationGone(url);
    var w := WithoutPunctuation(url);
    SettledMeans(url);
    SettledMeans(w);
    forall p | p <= url && Settled(p) ensures p <= TrimTurn(url) {
      assert p <= w;
      if Overclosed(w) {
        assert p != w;
      }
    }
  }

  /** Trimming ends at the longest beginning of the link that nothing comes off of. */
  lemma {:induction false} TrimmedIsLongestSettled(url: string)
    ensures Trimmed(url) <= url && Settled(Trimmed(url))
    ensures forall p :: p <= url && Settled(p) ==> p <= Trimmed(url)
    decreases |url|
  {
    TurnKeepsSettled(url);
    if TrimTurn(url) != url {
      TrimmedIsLongestSettled(TrimTurn(url));
    }
  }

  // ---------------------------------------------------------------- the result

  const HTTP := "http://"
  const HTTPS := "https://"

  predicate HasScheme(s: string) { HTTP <= s || HTTPS <= s }

  lemma OccursFromHere(text: string, needle: string, k: nat)
    requires k <= |text|
    ensures OccursAt(text, needle, k) <==> needle <= text[k..]
  {
  }

  /** The start is the first place where either scheme stands. */
  lemma StartIsFirst(text: string)
    ensures Start(text).None? <==> forall k :: 0 <= k <= |text| ==> !HasScheme(text[k..])
    ensures Start(text).Some? ==>
              var at := Start(text).value;
              at <= |text| && HasScheme(text[at..]) && forall k :: 0 <= k < at ==> !HasScheme(text[k..])
  {
    forall k | 0 <= k <= |text|
      ensures HasScheme(text[k..]) <==> OccursAt(text, HTTP, k) || OccursAt(text, HTTPS, k)
    {
      OccursFromHere(text, HTTP, k);
      OccursFromHere(text, HTTPS, k);
    }
  }

  lemma SlashSettles(s: string)
    requires s != [] && Last(s) == '/'
    ensures Settled(s)
  {
  }

  lemma SchemeStaysWhole(url: string)
    requires HasScheme(url)
    ensures HasScheme(Trimmed(url))
  {
    TrimmedIsLongestSettled(url);
    SlashSettles(HTTP);
    SlashSettles(HTTPS);
    assert HTTP <= url ==> HTTP <= Trimmed(url);
  }

  /** The link as it stands in the text before trimming. */
  function Candidate(text: string): string {
    if Start(text).None? then [] else text[Start(text).value..Run(text, Start(text).value)]
  }

  lemma RunCovers(s: string, at: nat, part: string)
    requires OccursAt(s, part, at) && forall c :: c in part ==> !Stops(c)
    ensures Run(s, at) >= at + |part|
  {
  }

  lemma StartOfSlice(text: string, at: nat, end: nat, part: string)
    requires OccursAt(text, part, at) && at + |part| <= end <= |text|
    ensures part <= text[at..end]
  {
    assert text[at..end][..|part|] == text[at..at + |part|];
  }

  lemma CandidateStart(text: string)
    requires Start(text).Some?
    ensures HasScheme(Candidate(text))
  {
    var at := Start(text).value;
    StartIsFirst(text);
    var scheme := if HTTP <= text[at..] then HTTP else HTTPS;
    OccursFromHere(text, scheme, at);
    NoStopIn(scheme);
    RunCovers(text, at, scheme);
    StartOfSlice(text, at, Run(text, at), scheme);
  }

  lemma NoStopIn(scheme: string)
    requires scheme == HTTP || scheme == HTTPS
    ensures forall c :: c in scheme ==> !Stops(c)
  {
  }

  lemma BeginningOfSlice(text: string, at: nat, end: nat, url: string)
    requires at <= end <= |text| && url <= text[at..end] && forall k :: at <= k < end ==> !Stops(text[k])
    ensures OccursAt(text, url, at) && forall c :: c in url ==> !Stops(c)
  {
  }

  lemma StopsMeans()
    ensures forall x :: Stops(x) <==> IsWhitespace(x) || x in "<>\""
  {
  }

  /** The candidate runs from the first scheme to the first white space or one of `<`, `>`, `"`, or to the end
      of the text. */
  lemma CandidateRuns(text: string)
    requires Start(text).Some?
    ensures var c, end := Candidate(text), Start(text).value + |Candidate(text)|;
            && end <= |text| && c == text[Start(text).value..end]
            && (forall x :: x in c ==> !IsWhitespace(x) && x !in "<>\"")
            && (end < |text| ==> IsWhitespace(text[end]) || text[end] in "<>\"")
  {
    StopsMeans();
    BeginningOfSlice(text, Start(text).value, Run(text, Start(text).value), Candidate(text));
  }

  /** A found link stands in the text at the first scheme, is the longest settled beginning of what
      runs from there to the first stop, and still has its scheme and a host. */
  lemma ResultInPlace(text: string)
    ensures UrlIn(text).Some? ==>
            var url := UrlIn(text).value;
            && Start(text).Some? && OccursAt(text, url, Start(text).value)
            && HasScheme(url) && HostPart(url) != [] && (forall c :: c in url ==> !Stops(c))
            && Settled(url) && url <= Candidate(text)
            && (forall p :: p <= Candidate(text) && Settled(p) ==> |p| <= |url|)
  {
    if UrlIn(text).Some? {
      var at := Start(text).value;
      CandidateStart(text);
      SchemeStaysWhole(Candidate(text));
      TrimmedIsLongestSettled(Candidate(text));
      BeginningOfSlice(text, at, Run(text, at), UrlIn(text).value);
    }
  }

  lemma WholeTextIsLink(url: string)
    requires HasScheme(url) && forall c :: c in url ==> !Stops(c)
    ensures Start(url) == Some(0) && Candidate(url) == url
  {
  }

  /** Looking for a link in a found link finds that link. */
  lemma Idempotent(text: string)
    ensures UrlIn(text).Some? ==> UrlIn(UrlIn(text).value) == UrlIn(text)
  {
    if UrlIn(text).Some? {
      var url := UrlIn(text).value;
      ResultInPlace(text);
      WholeTextIsLink(url);
      TurnKeepsSettled(url);
      assert Trimmed(url) == url;
    }
  }

  // ---------------------------------------------------------------- when there is no result

  /** After the scheme: nothing left, or a second `://` at once. */
  predicate NoHost(url: string) {
    var rest := if HTTP <= url then url[7..] else if HTTPS <= url then url[8..] else [];
    rest == [] || "://" <= rest
  }

  lemma SchemeShape(scheme: string)
    requires scheme == HTTP || scheme == HTTPS
    ensures |scheme| >= 3 && scheme[|scheme| - 3..] == "://"
    ensures forall i :: 0 <= i < |scheme| - 3 ==> scheme[i] != ':'
  {
  }

  lemma MarkOfScheme(url: string, scheme: string)
    requires scheme <= url && (scheme == HTTP || scheme == HTTPS)
    ensures |scheme| >= 3 && Find(url, "://", 0) == Some(|scheme| - 3)
  {
    SchemeShape(scheme);
    var n := |scheme|;
    assert url[n - 3..n] == scheme[n - 3..];
    assert OccursAt(url, "://", n - 3);
    forall k | 0 <= k < n - 3 ensures !OccursAt(url, "://", k) {
      assert url[k] == scheme[k];
      OccursStartsWith(url, "://", k);
    }
  }

  lemma HostAfterScheme(url: string)
    requires HasScheme(url)
    ensures HostPart(url) == [] <==> NoHost(url)
  {
    var scheme := if HTTP <= url then HTTP else HTTPS;
    MarkOfScheme(url, scheme);
    OccursFromHere(url, "://", |scheme|);
  }

  /** No link is found exactly when the text has no scheme, or the first one is left without a host;
      a later link is not looked for. */
  lemma NoUrlExactlyWhen(text: string)
    ensures UrlIn(text).None? <==> Start(text).None? || NoHost(Trimmed(Candidate(text)))
  {
    if Start(text).Some? {
      CandidateStart(text);
      SchemeStaysWhole(Candidate(text));
      HostAfterScheme(Trimmed(Candidate(text)));
    }
  }

  /** A scheme with no host after it hides every link in the rest of the text. */
  lemma BareSchemeHidesLinks(rest: string)
    requires rest != [] ==> Stops(rest[0])
    ensures UrlIn(HTTP + rest).None?
  {
    var text := HTTP + rest;
    assert text[0..] == text;
    StartIsFirst(text);
    NoStopIn(HTTP);
    assert text[0..7] == HTTP;
    RunCovers(text, 0, HTTP);
    assert Candidate(text) == HTTP;
    SlashSettles(HTTP);
    TurnKeepsSettled(HTTP);
    assert Trimmed(HTTP) == HTTP;
    NoUrlExactlyWhen(text);
  }
}
