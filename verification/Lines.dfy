/** The journal's line format (internal/journal/store_jsonl.go): splitting, trimming, torn tails. */
module Lines {
  import opened Base
  import T = Texts

  function Trim(s: string): string { T.TrimBy(s, T.IsSpaceByte) }

  predicate Blank(s: string) { Trim(s) == "" }

  // ── lines ────────────────────────────────────────────────────────────────────

  predicate OneLine(s: string) { '\n' !in s }

  function Join(lines: seq<string>): string
    requires lines != []
  {
    if |lines| == 1 then lines[0] else Join(lines[..|lines| - 1]) + "\n" + lines[|lines| - 1]
  }

  /** The segments between line feeds; the last one is the unterminated tail. */
  function Segments(data: string): (lines: seq<string>)
    ensures lines != [] && forall l :: l in lines ==> OneLine(l)
  {
    if data == "" then [""]
    else
      var front, last := Segments(data[..|data| - 1]), data[|data| - 1];
      if last == '\n' then front + [""]
      else
        assert front[|front| - 1] in front;
        front[..|front| - 1] + [front[|front| - 1] + [last]]
  }

  function Tail(data: string): string { Segments(data)[|Segments(data)| - 1] }

  /** The lines that a line feed ends. */
  function Terminated(data: string): seq<string> { Segments(data)[..|Segments(data)| - 1] }

  /** Splitting is exact: joining the segments gives the data back. */
  lemma {:induction false} SegmentsJoin(data: string)
    ensures Join(Segments(data)) == data
  {
    if data != "" {
      var front, last := Segments(data[..|data| - 1]), data[|data| - 1];
      SegmentsJoin(data[..|data| - 1]);
      assert data == data[..|data| - 1] + [last];
      if last == '\n' {
        assert (front + [""])[..|front|] == front;
        assert Join(front + [""]) == Join(front) + "\n" + "";
      } else {
        var ext := front[..|front| - 1] + [front[|front| - 1] + [last]];
        assert ext[..|front| - 1] == front[..|front| - 1];
        if |front| > 1 {
          assert Join(ext) == Join(front[..|front| - 1]) + "\n" + (front[|front| - 1] + [last]);
        }
      }
    }
  }

  /** Bytes without a line feed only extend the tail. */
  lemma {:induction false} TailGrows(data: string, more: string)
    requires OneLine(more)
    ensures Tail(data + more) == Tail(data) + more
    ensures Terminated(data + more) == Terminated(data)
  {
    if more == "" {
      assert data + more == data;
    } else {
      var front := more[..|more| - 1];
      assert more == front + [more[|more| - 1]];
      assert more[|more| - 1] in more;
      TailGrows(data, front);
      assert (data + more)[..|data + more| - 1] == data + front;
      assert Tail(data + more) == Tail(data + front) + [more[|more| - 1]];
    }
  }

  lemma LineFeedEndsTail(data: string)
    ensures Tail(data + "\n") == ""
    ensures Terminated(data + "\n") == Terminated(data) + [Tail(data)]
  {
    assert (data + "\n")[..|data + "\n"| - 1] == data;
    assert Segments(data) == Terminated(data) + [Tail(data)];
  }

  lemma TailStep(data: string)
    requires data != ""
    ensures var last := data[|data| - 1];
            Tail(data) == if last == '\n' then "" else Tail(data[..|data| - 1]) + [last]
  {
  }

  lemma {:induction false} TailIsSuffix(data: string)
    ensures |Tail(data)| <= |data| && data[|data| - |Tail(data)|..] == Tail(data)
    ensures Tail(data) == data || data[|data| - |Tail(data)| - 1] == '\n'
  {
    if data != "" {
      var front := data[..|data| - 1];
      TailIsSuffix(front);
      TailStep(data);
      assert data == front + [data[|data| - 1]];
      if data[|data| - 1] != '\n' {
        assert data[|data| - |Tail(data)|..] == front[|front| - |Tail(front)|..] + [data[|data| - 1]];
      }
    }
  }

  /** Cutting the tail off keeps the terminated lines. */
  lemma CutTail(data: string)
    ensures |Tail(data)| <= |data|
    ensures var kept := data[..|data| - |Tail(data)|];
            Tail(kept) == "" && Terminated(kept) == Terminated(data)
  {
    TailIsSuffix(data);
    var kept := data[..|data| - |Tail(data)|];
    assert data == kept + Tail(data);
    assert Tail(data) in Segments(data);
    TailGrows(kept, Tail(data));
    assert |Tail(kept)| + |Tail(data)| == |Tail(data)|;
  }

  lemma EndsWithLineFeed(data: string)
    ensures Tail(data) == "" <==> data == "" || data[|data| - 1] == '\n'
  {
  }

  lemma TailStart(data: string, i: nat)
    requires i <= |data| && (i == 0 || data[i - 1] == '\n') && OneLine(data[i..])
    ensures |data| - i == |Tail(data)|
  {
    assert data == data[..i] + data[i..];
    TailGrows(data[..i], data[i..]);
    EndsWithLineFeed(data[..i]);
  }

  /** The index just after the last line feed, 0 without one. */
  method AfterLastLineFeed(data: string) returns (i: nat)
    ensures |Tail(data)| <= |data| && i == |data| - |Tail(data)|
  {
    i := |data|;
    while i > 0 && data[i - 1] != '\n'
      invariant i <= |data| && OneLine(data[i..])
    {
      assert data[i - 1..] == [data[i - 1]] + data[i..];
      i := i - 1;
    }
    TailStart(data, i);
  }
}
