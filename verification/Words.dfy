// Comparing texts up to white space, as the Codex bridge does when it drops a text part
// that repeats the one before it.
module Words {
  import opened Text

  // value.replace(/\s+/g, " ")
  function CollapseSpace(s: string): string {
    if s == "" then ""
    else if !IsSpace(s[0]) then [s[0]] + CollapseSpace(s[1..])
    else if |s| > 1 && IsSpace(s[1]) then CollapseSpace(s[1..])
    else [' '] + CollapseSpace(s[1..])
  }

  predicate SameWords(a: string, b: string) {
    Trim(CollapseSpace(a)) == Trim(CollapseSpace(b))
  }

  // The longest pieces without white space, in order.
  function WordsOf(s: string): (r: seq<string>)
    ensures forall i :: 0 <= i < |r| ==> r[i] != "" && forall k :: 0 <= k < |r[i]| ==> !IsSpace(r[i][k])
    ensures s == "" || !IsSpace(s[0]) ==> (r == [] <==> s == "")
  {
    if s == "" then []
    else if IsSpace(s[0]) then WordsOf(s[1..])
    else if |s| == 1 || IsSpace(s[1]) then [[s[0]]] + WordsOf(s[1..])
    else
      var later := WordsOf(s[1..]);
      [[s[0]] + later[0]] + later[1..]
  }

  function Spaced(words: seq<string>): string {
    if words == [] then "" else if |words| == 1 then words[0] else words[0] + " " + Spaced(words[1..])
  }

  // Two texts are the same up to white space if and only if they have the same words.
  lemma SameWordsMeans(a: string, b: string)
    ensures SameWords(a, b) <==> WordsOf(a) == WordsOf(b)
  {
    hide CollapseSpace, Trim, WordsOf, Spaced;
    CollapsedWords(a);
    CollapsedWords(b);
    SpacedWords(WordsOf(a));
    SpacedWords(WordsOf(b));
  }

  // What is compared are the words with single spaces between them.
  lemma CollapsedWords(s: string)
    ensures Trim(CollapseSpace(s)) == Spaced(WordsOf(s))
  {
    hide WordsOf, Spaced;
    Leading(s);
    Trailing(TrimStart(s));
  }

  lemma {:induction false} Leading(s: string)
    ensures TrimStart(CollapseSpace(s)) == CollapseSpace(TrimStart(s)) && WordsOf(TrimStart(s)) == WordsOf(s)
  {
    if s != "" && IsSpace(s[0]) {
      Leading(s[1..]);
      if CollapseSpace(s) == [' '] + CollapseSpace(s[1..]) {
        assert ([' '] + CollapseSpace(s[1..]))[1..] == CollapseSpace(s[1..]);
      }
    }
  }

  // White space before a word becomes one space.
  lemma {:induction false} OneSpace(s: string)
    requires s != "" && IsSpace(s[0])
    ensures CollapseSpace(s) == " " + CollapseSpace(TrimStart(s))
  {
    if |s| > 1 && IsSpace(s[1]) {
      OneSpace(s[1..]);
    } else {
      assert TrimStart(s) == TrimStart(s[1..]) == s[1..];
    }
  }

  lemma {:induction false} TrimEndKeeps(c: char, s: string)
    requires !IsSpace(c) || TrimEnd(s) != ""
    ensures TrimEnd([c] + s) == [c] + TrimEnd(s)
    decreases |s|
  {
    if s != "" && IsSpace(s[|s| - 1]) {
      assert ([c] + s)[..|s|] == [c] + s[..|s| - 1];
      TrimEndKeeps(c, s[..|s| - 1]);
    }
  }

  lemma {:induction false} Trailing(s: string)
    requires s == "" || !IsSpace(s[0])
    ensures TrimEnd(CollapseSpace(s)) == Spaced(WordsOf(s))
    decreases |s|
  {
    hide TrimStart;
    if s != "" {
      TrimEndKeeps(s[0], CollapseSpace(s[1..]));
      if |s| == 1 {
        assert s == [s[0]];
      } else if IsSpace(s[1]) {
        AfterTheWord(s);
      } else {
        Trailing(s[1..]);
        LongerWord(s[0], WordsOf(s[1..]));
      }
    }
  }

  lemma AfterTheWord(s: string)
    requires |s| > 1 && !IsSpace(s[0]) && IsSpace(s[1])
    ensures TrimEnd(CollapseSpace(s)) == Spaced(WordsOf(s))
    decreases |s|, 0
  {
    hide TrimStart, TrimEnd, CollapseSpace, WordsOf, Spaced;
    var more := TrimStart(s[1..]);
    WordThenSpace(s);
    TrimEndKeeps(s[0], " " + CollapseSpace(more));
    Trailing(more);
    SpaceThenWords(more);
    OneMoreWord([s[0]], WordsOf(more));
  }

  lemma WordThenSpace(s: string)
    requires |s| > 1 && !IsSpace(s[0]) && IsSpace(s[1])
    ensures CollapseSpace(s) == [s[0]] + (" " + CollapseSpace(TrimStart(s[1..])))
    ensures WordsOf(s) == [[s[0]]] + WordsOf(TrimStart(s[1..]))
  {
    OneSpace(s[1..]);
    Leading(s[1..]);
  }

  lemma SpaceThenWords(s: string)
    requires s == "" || !IsSpace(s[0])
    ensures TrimEnd(" " + CollapseSpace(s)) == if s == "" then "" else " " + TrimEnd(CollapseSpace(s))
  {
    if s != "" {
      SomeEndKept(CollapseSpace(s));
      TrimEndKeeps(' ', CollapseSpace(s));
    }
  }

  lemma OneMoreWord(word: string, words: seq<string>)
    ensures Spaced([word] + words) == if words == [] then word else word + (" " + Spaced(words))
    ensures Spaced([]) == ""
  {
    assert ([word] + words)[1..] == words;
  }

  lemma {:induction false} SomeEndKept(s: string)
    requires s != "" && !IsSpace(s[0])
    ensures TrimEnd(s) != ""
  {
    if |s| > 1 {
      SomeEndKept(s[..|s| - 1]);
    }
  }

  lemma LongerWord(c: char, words: seq<string>)
    requires words != []
    ensures Spaced([[c] + words[0]] + words[1..]) == [c] + Spaced(words)
  {
    hide Spaced;
    OneMoreWord([c] + words[0], words[1..]);
    OneMoreWord(words[0], words[1..]);
    assert [words[0]] + words[1..] == words;
  }

  // Words with single spaces between them have just these words.
  lemma {:induction false} SpacedWords(words: seq<string>)
    requires forall i :: 0 <= i < |words| ==>
      words[i] != "" && forall k :: 0 <= k < |words[i]| ==> !IsSpace(words[i][k])
    ensures WordsOf(Spaced(words)) == words
  {
    if |words| == 1 {
      WordFirst(words[0], "");
      assert words[0] + "" == words[0];
    } else if words != [] {
      SpacedWords(words[1..]);
      var more := " " + Spaced(words[1..]);
      assert more[1..] == Spaced(words[1..]);
      WordFirst(words[0], more);
      assert words[0] + " " + Spaced(words[1..]) == words[0] + more;
    }
  }

  lemma {:induction false} WordFirst(word: string, more: string)
    requires word != "" && (more == "" || IsSpace(more[0])) && forall k :: 0 <= k < |word| ==> !IsSpace(word[k])
    ensures WordsOf(word + more) == [word] + WordsOf(more)
  {
    var s := word + more;
    if |word| == 1 {
      assert s[1..] == more && word == [s[0]];
      assert more != "" ==> WordsOf(more) == WordsOf(more[1..]);
    } else {
      assert s[1..] == word[1..] + more && s[1] == word[1];
      WordFirst(word[1..], more);
      assert [word[0]] + word[1..] == word;
    }
  }
}
