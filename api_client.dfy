/**
 * The backend client (modules/api_client.py): the readiness check over the
 * node list, the aggregation of the nodes' streamed search results into one
 * ordered list of lines, and the paste upload. What each node answers is
 * given as data, one reply per node URL, in node-list order.
 */
module ApiClient {
  import opened Wrappers
  import opened Text

  // ---------------------------------------------------------------------------
  // Readiness check

  /** A node's answer to `GET /status`: an exception, or a status code with the body's `state`. */
  datatype StatusReply =
    | StatusUnreachable(error: string)
    | StatusAnswer(code: nat, state: Option<string>)

  predicate NodeReady(reply: StatusReply) {
    reply.StatusAnswer? && reply.code == 200 && reply.state == Some("done")
  }

  const AllReadyMessage: string := "All API nodes are ready."

  /** The diagnostic naming a node that is not ready. */
  function NotReadyMessage(url: string, reply: StatusReply): string {
    match reply
    case StatusUnreachable(e) => "Node " + url + " is unreachable: " + e
    case StatusAnswer(code, state) =>
      if code == 200 then "Node " + url + " is not ready. State: " + state.GetOr("None")
      else "Node " + url + " returned HTTP " + NatToString(code)
  }

  /** Position of the first node that is not ready; the length of the list when all are. */
  function FirstNotReady(replies: seq<StatusReply>): (k: nat)
    ensures k <= |replies|
    ensures forall i :: 0 <= i < k ==> NodeReady(replies[i])
    ensures k < |replies| ==> !NodeReady(replies[k])
  {
    if replies == [] then 0
    else if !NodeReady(replies[0]) then 0
    else 1 + FirstNotReady(replies[1..])
  }

  /** The message `check_api_status` returns for these replies. */
  function ReadinessMessage(urls: seq<string>, replies: seq<StatusReply>): string
    requires |replies| == |urls|
  {
    var k := FirstNotReady(replies);
    if k < |replies| then NotReadyMessage(urls[k], replies[k]) else AllReadyMessage
  }

  /**
   * `check_api_status`: ready exactly when every node answers 200 with state
   * "done"; otherwise it stops at the first node in list order that does not,
   * and names it.
   */
  method CheckApiStatus(urls: seq<string>, replies: seq<StatusReply>) returns (ready: bool, message: string)
    requires |replies| == |urls|
    ensures ready <==> forall i :: 0 <= i < |replies| ==> NodeReady(replies[i])
    ensures ready ==> message == AllReadyMessage
    ensures ready == (FirstNotReady(replies) == |replies|) && message == ReadinessMessage(urls, replies)
    ensures !ready ==> (exists k :: 0 <= k < |replies| && FirstNotReady(replies) == k
                                 && message == NotReadyMessage(urls[k], replies[k]))
  {
    for i := 0 to |urls|
      invariant forall j :: 0 <= j < i ==> NodeReady(replies[j])
    {
      if !NodeReady(replies[i]) {
        FirstNotReadyIsFirst(replies, i);
        return false, NotReadyMessage(urls[i], replies[i]);
      }
    }
    return true, AllReadyMessage;
  }

  /** The first node that is not ready is the one `FirstNotReady` names. */
  lemma {:induction false} FirstNotReadyIsFirst(replies: seq<StatusReply>, k: nat)
    requires k < |replies| && !NodeReady(replies[k])
    requires forall j :: 0 <= j < k ==> NodeReady(replies[j])
    ensures FirstNotReady(replies) == k
  {
    if k > 0 {
      FirstNotReadyIsFirst(replies[1..], k - 1);
    }
  }

  // ---------------------------------------------------------------------------
  // Search aggregation

  /**
   * A node's answer to `GET /search`: an exception before any response, or a
   * status code with the lines of the streamed body, possibly cut short by an
   * exception raised after those lines.
   */
  datatype NodeReply =
    | Unreachable(error: string)
    | Streamed(code: nat, lines: seq<string>, broken: Option<string>)

  const ErrorMarker: string := "{\"error\":"
  const BackendErrorPrefix: string := "Backend Error: "

  function HttpErrorLine(url: string, code: nat): string {
    "Error from " + url + ": HTTP " + NatToString(code)
  }

  function FailedLine(url: string, error: string): string {
    "Failed to reach " + url + ": " + error
  }

  /**
   * One streamed body line as the client keeps it: blank lines are dropped, a
   * structured error whose JSON `decode` reads becomes "Backend Error: <msg>",
   * anything else is kept stripped.
   */
  function Classify(raw: string, decode: string -> Option<string>): (r: Option<string>)
    ensures r.None? <==> Blank(raw)
    ensures r.Some? ==> r.value != []
    ensures r.Some? && !StartsWith(Strip(raw), ErrorMarker) ==> r.value == Strip(raw)
    ensures r.Some? && StartsWith(Strip(raw), ErrorMarker) && decode(Strip(raw)).Some? ==>
      r.value == BackendErrorPrefix + decode(Strip(raw)).value
    ensures r.Some? && decode(Strip(raw)).None? ==> r.value == Strip(raw)
  {
    var text := Strip(raw);
    if text == [] then None
    else if StartsWith(text, ErrorMarker) && decode(text).Some? then Some(BackendErrorPrefix + decode(text).value)
    else Some(text)
  }

  /** The lines kept from a body, in body order. */
  function Kept(lines: seq<string>, decode: string -> Option<string>): (r: seq<string>)
    ensures |r| <= |lines|
    ensures forall i :: 0 <= i < |r| ==> r[i] != []
  {
    if lines == [] then []
    else
      var last := Classify(lines[|lines| - 1], decode);
      Kept(lines[..|lines| - 1], decode) + (if last.Some? then [last.value] else [])
  }

  lemma KeptSnoc(lines: seq<string>, j: nat, decode: string -> Option<string>)
    requires j < |lines|
    ensures Kept(lines[..j + 1], decode) == Kept(lines[..j], decode)
      + (if Classify(lines[j], decode).Some? then [Classify(lines[j], decode).value] else [])
  {
    assert lines[..j + 1][..j] == lines[..j];
  }

  /**
   * What one node adds to the result list: no empty line, one line for a
   * node that failed outright, and at most its body plus one line otherwise.
   */
  function NodeLines(url: string, reply: NodeReply, decode: string -> Option<string>): (r: seq<string>)
    ensures forall k :: 0 <= k < |r| ==> r[k] != []
    ensures reply.Unreachable? || reply.code != 200 ==> |r| == 1
    ensures reply.Streamed? && reply.code == 200 ==> |r| <= |reply.lines| + 1
  {
    match reply
    case Unreachable(e) => [FailedLine(url, e)]
    case Streamed(code, lines, broken) =>
      if code != 200 then [HttpErrorLine(url, code)]
      else Kept(lines, decode) + (if broken.Some? then [FailedLine(url, broken.value)] else [])
  }

  /** Each node's lines, in node-list order. */
  function Contributions(urls: seq<string>, replies: seq<NodeReply>, decode: string -> Option<string>)
    : seq<seq<string>>
    requires |replies| == |urls|
  {
    seq(|urls|, i requires 0 <= i < |urls| => NodeLines(urls[i], replies[i], decode))
  }

  /** The parts joined end to end. */
  function Flatten(parts: seq<seq<string>>): seq<string> {
    if parts == [] then [] else Flatten(parts[..|parts| - 1]) + parts[|parts| - 1]
  }

  lemma {:induction false} FlattenConcat(a: seq<seq<string>>, b: seq<seq<string>>)
    ensures Flatten(a + b) == Flatten(a) + Flatten(b)
  {
    if b == [] {
      assert a + b == a;
    } else {
      var n := |b| - 1;
      FlattenConcat(a, b[..n]);
      assert (a + b)[..|a + b| - 1] == a + b[..n];
      assert (a + b)[|a + b| - 1] == b[n];
    }
  }

  /** The result list: every node's lines, in node-list order. */
  function Aggregate(urls: seq<string>, replies: seq<NodeReply>, decode: string -> Option<string>): seq<string>
    requires |replies| == |urls|
  {
    Flatten(Contributions(urls, replies, decode))
  }

  /** Aggregating two lists of nodes is aggregating each and concatenating, in that order. */
  lemma AggregateConcat(
    u1: seq<string>, r1: seq<NodeReply>, u2: seq<string>, r2: seq<NodeReply>, decode: string -> Option<string>)
    requires |r1| == |u1| && |r2| == |u2|
    ensures Aggregate(u1 + u2, r1 + r2, decode) == Aggregate(u1, r1, decode) + Aggregate(u2, r2, decode)
  {
    var c1, c2 := Contributions(u1, r1, decode), Contributions(u2, r2, decode);
    assert Contributions(u1 + u2, r1 + r2, decode) == c1 + c2;
    FlattenConcat(c1, c2);
  }

  /** No empty line ever reaches the result list. */
  lemma {:induction false} AggregateHasNoEmptyLine(urls: seq<string>, replies: seq<NodeReply>,
                                                   decode: string -> Option<string>)
    requires |replies| == |urls|
    ensures forall k :: 0 <= k < |Aggregate(urls, replies, decode)| ==> Aggregate(urls, replies, decode)[k] != []
  {
    if |urls| > 0 {
      var n := |urls| - 1;
      AggregateSnoc(urls, replies, decode);
      AggregateHasNoEmptyLine(urls[..n], replies[..n], decode);
      var front, last := Aggregate(urls[..n], replies[..n], decode), NodeLines(urls[n], replies[n], decode);
      assert forall k :: 0 <= k < |front + last| ==> (front + last)[k] != [] by {
        forall k | 0 <= k < |front + last|
          ensures (front + last)[k] != []
        {
          if k >= |front| {
            assert (front + last)[k] == last[k - |front|];
          }
        }
      }
    }
  }

  /** Adding a node at the end of the list appends its lines. */
  lemma AggregateSnoc(urls: seq<string>, replies: seq<NodeReply>, decode: string -> Option<string>)
    requires |replies| == |urls| && |urls| > 0
    ensures Aggregate(urls, replies, decode)
         == Aggregate(urls[..|urls| - 1], replies[..|urls| - 1], decode)
          + NodeLines(urls[|urls| - 1], replies[|urls| - 1], decode)
  {
    var n := |urls| - 1;
    var c := Contributions(urls, replies, decode);
    var p := Contributions(urls[..n], replies[..n], decode);
    assert c[..n] == p by {
      forall i | 0 <= i < n
        ensures c[i] == p[i]
      {
        assert urls[..n][i] == urls[i] && replies[..n][i] == replies[i];
      }
    }
    assert Flatten(c) == Flatten(c[..n]) + c[n];
  }

  /**
   * A node that answers with a status other than 200, or cannot be reached,
   * adds exactly one line and none of its body.
   */
  lemma FailingNodeAddsOneLine(url: string, reply: NodeReply, decode: string -> Option<string>)
    requires reply.Unreachable? || reply.code != 200
    ensures NodeLines(url, reply, decode) ==
      if reply.Unreachable? then [FailedLine(url, reply.error)] else [HttpErrorLine(url, reply.code)]
  {
  }

  /**
   * One pass of `fetch_search_results`' loop body: the lines one node adds,
   * reading its streamed body line by line.
   */
  method FetchNode(url: string, reply: NodeReply, decode: string -> Option<string>) returns (added: seq<string>)
    ensures added == NodeLines(url, reply, decode)
  {
    match reply
    case Unreachable(e) =>
      added := [FailedLine(url, e)];
    case Streamed(code, lines, broken) =>
      if code != 200 {
        return [HttpErrorLine(url, code)];
      }
      added := [];
      for j := 0 to |lines|
        invariant added == Kept(lines[..j], decode)
      {
        KeptSnoc(lines, j, decode);
        var text := Strip(lines[j]);
        if text != [] {
          if StartsWith(text, ErrorMarker) && decode(text).Some? {
            added := added + [BackendErrorPrefix + decode(text).value];
          } else {
            added := added + [text];
          }
        }
      }
      assert lines[..|lines|] == lines;
      if broken.Some? {
        added := added + [FailedLine(url, broken.value)];
      }
  }

  /**
   * `fetch_search_results`: asks the nodes one after another and collects their
   * lines into one list. A failing node never stops the nodes after it.
   */
  method FetchSearchResults(urls: seq<string>, replies: seq<NodeReply>, decode: string -> Option<string>)
    returns (results: seq<string>)
    requires |replies| == |urls|
    ensures results == Aggregate(urls, replies, decode)
  {
    ghost var parts := Contributions(urls, replies, decode);
    results := [];
    for n := 0 to |urls|
      invariant results == Flatten(parts[..n])
    {
      assert parts[..n + 1] == parts[..n] + [parts[n]];
      var added := FetchNode(urls[n], replies[n], decode);
      results := results + added;
    }
    assert parts[..|urls|] == parts;
  }

  // ---------------------------------------------------------------------------
  // Paste upload

  /** The paste host's answer to `POST /api/paste`: an exception, or a status with the body's `id`. */
  datatype PasteReply =
    | PasteUnreachable(error: string)
    | PasteAnswer(code: nat, id: Option<string>)

  /** `create_paste`: the paste's link under the host when it was created (201), "" otherwise. */
  function CreatePaste(base: string, reply: PasteReply): (url: string)
    ensures url != [] <==> reply.PasteAnswer? && reply.code == 201 && reply.id.Some?
    ensures url != [] ==> StartsWith(url, base + "/") && url[|base| + 1..] == reply.id.value
  {
    match reply
    case PasteAnswer(201, Some(id)) => base + "/" + id
    case _ => ""
  }
}
