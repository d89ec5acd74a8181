/** The status line handlePeerConnected shows when a stranger is found
    (video.js lines 255-267). */
module Status {
  import opened JsonValue

  /** The status line with no interests in common. */
  const Base: string := "Connected! You are now video chatting with a stranger."

  /** `Array.isArray(data) ? data : []` */
  function InterestList(data: Json): seq<Json> {
    if data.JArr? then data.items else []
  }

  /** The status line for the `connected` payload: the base line, followed
      by the shared-interest sentence when the list is not empty. */
  function StatusLine(data: Json): (r: string)
    ensures |r| >= |Base| && r[..|Base|] == Base
    ensures r == Base <==> InterestList(data) == []
    ensures r != Base ==> r[|r| - 1] == '.'
  {
    Base + SharedSentence(InterestList(data))
  }

  /** A `connected` payload that is not an array (null, an object, a string)
      has no shared interests: the status is the base line. */
  lemma StatusWithoutArray(data: Json)
    requires !data.JArr?
    ensures StatusLine(data) == Base
  {
  }

  /** " You both like ... ." for a non-empty list. The last interest goes
      through `|| ''`, so a falsy last value shows as empty text; the others
      go through Array.prototype.join(', '). */
  function SharedSentence(interests: seq<Json>): (r: string)
    ensures r == "" <==> interests == []
    ensures r != "" ==> r[|r| - 1] == '.'
  {
    if |interests| > 0 then
      var last := interests[|interests| - 1];
      var common := if Falsy(last) then "" else JsText(last);
      var first := interests[..|interests| - 1];
      var listed := if |first| > 0 then Join(ElemTexts(first), ", ") + " and " + common else common;
      " You both like " + listed + "."
    else
      ""
  }

  /** Reference wording of a list in English: "a", "a and b", "a, b and c". */
  function EnglishList(xs: seq<string>): string
    requires |xs| >= 1
  {
    if |xs| == 1 then xs[0]
    else if |xs| == 2 then xs[0] + " and " + xs[1]
    else xs[0] + ", " + EnglishList(xs[1..])
  }

  /** Joining all but the last item with ", " and adding " and " plus the
      last item is the English list wording. */
  lemma {:induction false} JoinThenAnd(xs: seq<string>, y: string)
    requires |xs| >= 1
    ensures Join(xs, ", ") + " and " + y == EnglishList(xs + [y])
  {
    if |xs| > 1 {
      var rest := xs[1..];
      JoinThenAnd(rest, y);
      assert (xs + [y])[1..] == rest + [y];
      assert Join(xs, ", ") == xs[0] + ", " + Join(rest, ", ");
    }
  }

  /** For interest tags that are strings the status is the base line alone,
      or followed by " You both like " + the tags as an English list + ".". */
  lemma StatusLineForTags(tags: seq<string>)
    ensures StatusLine(JArr(StringItems(tags))) ==
      if tags == [] then Base else Base + " You both like " + EnglishList(tags) + "."
  {
    SentenceForTags(tags, StringItems(tags));
  }

  lemma SentenceForTags(tags: seq<string>, items: seq<Json>)
    requires |items| == |tags| && forall i :: 0 <= i < |tags| ==> items[i] == JStr(tags[i])
    ensures SharedSentence(items) ==
      if tags == [] then "" else " You both like " + EnglishList(tags) + "."
  {
    if |tags| == 1 {
      assert items[0] == JStr(tags[0]);
    } else if |tags| > 1 {
      SentenceForManyTags(tags, items);
    }
  }

  lemma SentenceForManyTags(tags: seq<string>, items: seq<Json>)
    requires |items| == |tags| > 1 && forall i :: 0 <= i < |tags| ==> items[i] == JStr(tags[i])
    ensures SharedSentence(items) == " You both like " + EnglishList(tags) + "."
  {
    var n := |tags|;
    var init, last := tags[..n - 1], tags[n - 1];
    calc {
      SharedSentence(items);
    == { SentenceUnfolds(items, last); }
      " You both like " + (Join(ElemTexts(items[..n - 1]), ", ") + " and " + last) + ".";
    == { TextsOfTags(tags, items); }
      " You both like " + (Join(init, ", ") + " and " + last) + ".";
    == { JoinThenAnd(init, last); SplitLast(tags); }
      " You both like " + EnglishList(tags) + ".";
    }
  }

  lemma SplitLast<T>(xs: seq<T>)
    requires |xs| > 0
    ensures xs[..|xs| - 1] + [xs[|xs| - 1]] == xs
  {
  }

  lemma SentenceUnfolds(items: seq<Json>, last: string)
    requires |items| > 1 && items[|items| - 1] == JStr(last)
    ensures SharedSentence(items) ==
      " You both like " + (Join(ElemTexts(items[..|items| - 1]), ", ") + " and " + last) + "."
  {
  }

  lemma TextsOfTags(tags: seq<string>, items: seq<Json>)
    requires |items| == |tags| > 0 && forall i :: 0 <= i < |tags| ==> items[i] == JStr(tags[i])
    ensures ElemTexts(items[..|tags| - 1]) == tags[..|tags| - 1]
  {
  }

  /** The single-overlap scenario: "chess" alone. */
  lemma OneSharedInterest()
    ensures StatusLine(JArr(StringItems(["chess"]))) == Base + " You both like chess."
  {
    StatusLineForTags(["chess"]);
  }

  /** Three tags read "a, b and c". */
  lemma ThreeTagsWording()
    ensures EnglishList(["a", "b", "c"]) == "a, b and c"
  {
    assert ["a", "b", "c"][1..] == ["b", "c"];
    assert EnglishList(["b", "c"]) == "b and c";
  }

  /** The three-tag scenario: "a", "b" and "c". */
  lemma ThreeSharedInterests()
    ensures StatusLine(JArr(StringItems(["a", "b", "c"]))) == Base + " You both like a, b and c."
  {
    calc {
      StatusLine(JArr(StringItems(["a", "b", "c"])));
    == { StatusLineForTags(["a", "b", "c"]); }
      Base + " You both like " + EnglishList(["a", "b", "c"]) + ".";
    == { ThreeTagsWording(); }
      Base + " You both like " + "a, b and c" + ".";
    == 
      Base + " You both like a, b and c.";
    }
  }
}
