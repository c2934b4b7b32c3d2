/** Customer and till requests, gathered into one line per article. */
module Requests {
  import opened Wrappers
  import opened Orders

  datatype Request = Request(article: nat, quantity: nat)

  predicate OneLinePerArticle(lines: seq<Line>) {
    forall i, j :: 0 <= i < j < |lines| ==> lines[i].article != lines[j].article
  }

  predicate Mentions(lines: seq<Line>, article: nat) {
    exists k :: 0 <= k < |lines| && lines[k].article == article
  }

  predicate Asked(requests: seq<Request>, article: nat) {
    exists k :: 0 <= k < |requests| && requests[k].article == article
  }

  /** The quantity of the first line of an article, 0 when it has none. */
  function QuantityOf(lines: seq<Line>, article: nat): nat {
    if lines == [] then 0
    else if lines[0].article == article then lines[0].quantity
    else QuantityOf(lines[1..], article)
  }

  function Requested(requests: seq<Request>, article: nat): nat {
    if requests == [] then 0
    else
      var r := requests[|requests| - 1];
      Requested(requests[..|requests| - 1], article) + if r.article == article then r.quantity else 0
  }

  /** Adds to the article's entry, or opens one at the end: the insertion order of a Map. */
  function AddRequest(lines: seq<Line>, r: Request): seq<Line> {
    if lines == [] then [Line(r.article, r.quantity, 0.0)]
    else if lines[0].article == r.article then
      [lines[0].(quantity := lines[0].quantity + r.quantity)] + lines[1..]
    else [lines[0]] + AddRequest(lines[1..], r)
  }

  function Aggregate(requests: seq<Request>): seq<Line> {
    if requests == [] then []
    else AddRequest(Aggregate(requests[..|requests| - 1]), requests[|requests| - 1])
  }

  lemma {:induction false} AddRequestAdds(lines: seq<Line>, r: Request)
    requires OneLinePerArticle(lines)
    ensures var after := AddRequest(lines, r);
            && OneLinePerArticle(after)
            && (forall a: nat :: Mentions(after, a) <==> Mentions(lines, a) || a == r.article)
            && (forall a: nat :: QuantityOf(after, a) ==
                  QuantityOf(lines, a) + if a == r.article then r.quantity else 0)
  {
    var after := AddRequest(lines, r);
    if lines == [] {
      assert after[0].article == r.article;
    } else {
      var rest := lines[1..];
      AddRequestAdds(rest, r);
      forall a: nat ensures Mentions(lines, a) <==> lines[0].article == a || Mentions(rest, a) {
        MentionsHeadOrTail(lines, a);
      }
      forall a: nat ensures Mentions(after, a) <==> after[0].article == a || Mentions(after[1..], a) {
        MentionsHeadOrTail(after, a);
      }
      if lines[0].article == r.article {
        assert after[1..] == rest;
        NotMentionedIsZero(rest, r.article);
        forall i, j | 0 <= i < j < |after| ensures after[i].article != after[j].article {
          assert lines[i].article != lines[j].article;
        }
      } else {
        assert after[1..] == AddRequest(rest, r);
        assert !Mentions(rest, lines[0].article) by {
          forall k | 0 <= k < |rest| ensures rest[k].article != lines[0].article {
            assert rest[k] == lines[k + 1];
          }
        }
        forall i, j | 0 <= i < j < |after| ensures after[i].article != after[j].article {
          if i == 0 {
            assert after[1..][j - 1] == after[j];
            assert Mentions(after[1..], after[j].article);
          } else {
            assert after[1..][i - 1] == after[i] && after[1..][j - 1] == after[j];
          }
        }
      }
    }
  }

  lemma MentionsHeadOrTail(lines: seq<Line>, a: nat)
    requires lines != []
    ensures Mentions(lines, a) <==> lines[0].article == a || Mentions(lines[1..], a)
  {
    if Mentions(lines, a) && lines[0].article != a {
      var k :| 0 <= k < |lines| && lines[k].article == a;
      assert lines[1..][k - 1].article == a;
    }
    if Mentions(lines[1..], a) {
      var k :| 0 <= k < |lines[1..]| && lines[1..][k].article == a;
      assert lines[k + 1].article == a;
    }
  }

  lemma {:induction false} NotMentionedIsZero(lines: seq<Line>, a: nat)
    ensures !Mentions(lines, a) ==> QuantityOf(lines, a) == 0
  {
    if lines != [] {
      MentionsHeadOrTail(lines, a);
      NotMentionedIsZero(lines[1..], a);
    }
  }

  /** Gathering leaves one line per requested article, carrying exactly what was requested of it. */
  lemma {:induction false} AggregateGathers(requests: seq<Request>)
    ensures OneLinePerArticle(Aggregate(requests))
    ensures forall a: nat :: QuantityOf(Aggregate(requests), a) == Requested(requests, a)
    ensures forall a: nat :: Mentions(Aggregate(requests), a) <==> Asked(requests, a)
  {
    if requests != [] {
      var n := |requests| - 1;
      var earlier := requests[..n];
      AggregateGathers(earlier);
      AddRequestAdds(Aggregate(earlier), requests[n]);
      forall a: nat ensures Asked(requests, a) <==> Asked(earlier, a) || requests[n].article == a {
        if k :| 0 <= k < |earlier| && earlier[k].article == a {
          assert requests[k].article == a;
        }
        if k :| 0 <= k < n && requests[k].article == a {
          assert earlier[k].article == a;
        }
      }
    }
  }

  lemma {:induction false} AggregatesArePositive(requests: seq<Request>)
    requires forall k :: 0 <= k < |requests| ==> requests[k].quantity > 0
    ensures forall k :: 0 <= k < |Aggregate(requests)| ==> Aggregate(requests)[k].quantity > 0
  {
    if requests != [] {
      var n := |requests| - 1;
      AggregatesArePositive(requests[..n]);
      AddingKeepsPositive(Aggregate(requests[..n]), requests[n]);
    }
  }

  lemma {:induction false} AddingKeepsPositive(lines: seq<Line>, r: Request)
    requires r.quantity > 0 && forall k :: 0 <= k < |lines| ==> lines[k].quantity > 0
    ensures forall k :: 0 <= k < |AddRequest(lines, r)| ==> AddRequest(lines, r)[k].quantity > 0
  {
    if lines != [] && lines[0].article != r.article {
      AddingKeepsPositive(lines[1..], r);
    }
  }

  method AggregateLines(requests: seq<Request>) returns (lines: seq<Line>)
    ensures lines == Aggregate(requests)
    ensures OneLinePerArticle(lines)
    ensures forall a: nat :: QuantityOf(lines, a) == Requested(requests, a)
  {
    lines := [];
    for n := 0 to |requests|
      invariant lines == Aggregate(requests[..n])
    {
      assert requests[..n + 1][..n] == requests[..n];
      lines := AddRequest(lines, requests[n]);
    }
    assert requests[..|requests|] == requests;
    AggregateGathers(requests);
  }
}
