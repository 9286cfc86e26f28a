/** The short-URL table: codes are allocated with a bounded number of attempts and never re-pointed. */
module ShortUrls {
  import opened Tables

  const MAX_CODE_GENERATION_ATTEMPTS := 5

  /** The unique index on original_url; the primary key is the map's. */
  ghost predicate OneCodePerUrl(urls: map<string, string>) {
    forall c, d | c in urls && d in urls && urls[c] == urls[d] :: c == d
  }

  /** The code stored for a URL. */
  ghost function CodeOf(urls: map<string, string>, url: string): (code: Option<string>)
    ensures code.Some? ==> code.value in urls && urls[code.value] == url
    ensures code.None? ==> forall c | c in urls :: urls[c] != url
  {
    if exists c | c in urls :: urls[c] == url then
      var c :| c in urls && urls[c] == url;
      Some(c)
    else None
  }

  /** The first of the generated codes that is not taken. */
  function FirstFree(urls: map<string, string>, generated: seq<string>): (code: Option<string>)
    ensures code.Some? ==> code.value in generated && code.value !in urls
    ensures code.None? <==> forall c | c in generated :: c in urls
  {
    if generated == [] then None
    else if generated[0] !in urls then Some(generated[0])
    else FirstFree(urls, generated[1..])
  }

  /** What a call answers: the code the URL has, or else the first free one among the attempts. */
  ghost function Answer(urls: map<string, string>, url: string, generated: seq<string>): Option<string> {
    if CodeOf(urls, url).Some? then CodeOf(urls, url) else FirstFree(urls, generated)
  }

  ghost function After(urls: map<string, string>, url: string, generated: seq<string>): map<string, string> {
    if CodeOf(urls, url).None? && FirstFree(urls, generated).Some? then urls[FirstFree(urls, generated).value := url]
      else urls
  }

  class UrlShortener {
    var urls: map<string, string>

    constructor ()
      ensures urls == map[]
    {
      urls := map[];
    }

    method GetOriginalURL(shortCode: string) returns (url: Option<string>)
      ensures url.Some? <==> shortCode in urls
      ensures url.Some? ==> url.value == urls[shortCode]
    {
      if shortCode !in urls {
        return None;
      }
      return Some(urls[shortCode]);
    }

    /** `generated` holds what the code generator returns, one code per attempt. */
    method GetOrCreateShortCode(url: string, generated: seq<string>) returns (code: Option<string>)
      requires |generated| == MAX_CODE_GENERATION_ATTEMPTS && OneCodePerUrl(urls)
      modifies this
      ensures code == Answer(old(urls), url, generated)
      ensures urls == After(old(urls), url, generated)
      ensures code.Some? ==> code.value in urls && urls[code.value] == url
      ensures code.None? ==> urls == old(urls)
      ensures OneCodePerUrl(urls)
    {
      for attempts := 0 to MAX_CODE_GENERATION_ATTEMPTS
        invariant urls == old(urls)
        invariant attempts > 0 ==> CodeOf(urls, url).None?
        invariant FirstFree(urls, generated) == FirstFree(urls, generated[attempts..])
      {
        if exists c | c in urls :: urls[c] == url {
          var c :| c in urls && urls[c] == url;
          return Some(c);
        }
        var next := generated[attempts];
        if next in urls {
          assert generated[attempts..][1..] == generated[attempts + 1..];
          continue;
        }
        urls := urls[next := url];
        return Some(next);
      }
      return None;
    }
  }

  // ---------- what a call does ----------

  lemma {:induction false} FirstFreeIsFirst(urls: map<string, string>, generated: seq<string>, k: nat)
    requires k < |generated| && generated[k] !in urls && forall j | 0 <= j < k :: generated[j] in urls
    ensures FirstFree(urls, generated) == Some(generated[k])
  {
    if k > 0 { FirstFreeIsFirst(urls, generated[1..], k - 1); }
  }

  /** A URL that has a code keeps it; another one gets the first generated code that is free, if one is. */
  lemma CallEffect(urls: map<string, string>, url: string, generated: seq<string>)
    requires OneCodePerUrl(urls)
    ensures forall c | c in urls && urls[c] == url ::
              Answer(urls, url, generated) == Some(c) && After(urls, url, generated) == urls
    ensures forall k | 0 <= k < |generated| && (forall c | c in urls :: urls[c] != url)
              && generated[k] !in urls && (forall j | 0 <= j < k :: generated[j] in urls) ::
              Answer(urls, url, generated) == Some(generated[k])
              && After(urls, url, generated) == urls[generated[k] := url]
    ensures (forall c | c in urls :: urls[c] != url) && (forall k | 0 <= k < |generated| :: generated[k] in urls) ==>
              Answer(urls, url, generated) == None && After(urls, url, generated) == urls
  {
    forall k | 0 <= k < |generated| && generated[k] !in urls && (forall j | 0 <= j < k :: generated[j] in urls)
      ensures FirstFree(urls, generated) == Some(generated[k])
    {
      FirstFreeIsFirst(urls, generated, k);
    }
  }

  // ---------- any serial run of calls ----------

  datatype Request = Request(url: string, generated: seq<string>)

  ghost predicate IsRun(states: seq<map<string, string>>, requests: seq<Request>) {
    && |states| == |requests| + 1
    && states[0] == map[]
    && forall i, j | 0 <= i && j == i + 1 < |states| ::
       states[j] == After(states[i], requests[i].url, requests[i].generated)
  }

  lemma {:induction false} AlwaysOneCodePerUrl(states: seq<map<string, string>>, requests: seq<Request>, i: nat)
    requires IsRun(states, requests) && i < |states|
    ensures OneCodePerUrl(states[i])
  {
    if i > 0 {
      AlwaysOneCodePerUrl(states, requests, i - 1);
      assert states[i] == After(states[i - 1], requests[i - 1].url, requests[i - 1].generated);
    }
  }

  /** Once a code is there it stays, and it keeps pointing to the same URL. */
  lemma {:induction false} NeverRepointed(states: seq<map<string, string>>, requests: seq<Request>, i: nat, j: nat,
                                        code: string)
    requires IsRun(states, requests) && i <= j < |states| && code in states[i]
    ensures code in states[j] && states[j][code] == states[i][code]
    decreases j
  {
    if i < j {
      NeverRepointed(states, requests, i, j - 1, code);
      assert states[j] == After(states[j - 1], requests[j - 1].url, requests[j - 1].generated);
    }
  }

  /** A code that was answered looks up to its URL, and it is the answer to every later request for that URL. */
  lemma AnswersAgree(states: seq<map<string, string>>, requests: seq<Request>, i: nat, j: nat, code: string)
    requires IsRun(states, requests) && i < j < |requests| && requests[i].url == requests[j].url
    requires Answer(states[i], requests[i].url, requests[i].generated) == Some(code)
    ensures code in states[j] && states[j][code] == requests[j].url
    ensures Answer(states[j], requests[j].url, requests[j].generated) == Some(code)
  {
    assert states[i + 1] == After(states[i], requests[i].url, requests[i].generated);
    NeverRepointed(states, requests, i + 1, j, code);
    AlwaysOneCodePerUrl(states, requests, j);
  }

  /** Different URLs never get the same code. */
  lemma AnswersDiffer(states: seq<map<string, string>>, requests: seq<Request>, i: nat, j: nat, code: string)
    requires IsRun(states, requests) && i < j < |requests| && requests[i].url != requests[j].url
    requires Answer(states[i], requests[i].url, requests[i].generated) == Some(code)
    ensures Answer(states[j], requests[j].url, requests[j].generated) != Some(code)
  {
    assert states[i + 1] == After(states[i], requests[i].url, requests[i].generated);
    NeverRepointed(states, requests, i + 1, j, code);
  }
}
