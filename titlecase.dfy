/** `apply_title_case`: split a title on whitespace, capitalise every word and
    join the words again with single spaces. */
module TitleCase {
  import opened Strings

  /** Python's `word.capitalize()`: the first character upper-cased, the rest lower-cased. */
  function Capitalize(w: string): string {
    if w == [] then [] else [UpperChar(w[0])] + Lower(w[1..])
  }

  function CapitalizeAll(ws: seq<string>): seq<string> {
    seq(|ws|, i requires 0 <= i < |ws| => Capitalize(ws[i]))
  }

  /** `' '.join(word.capitalize() for word in title.split())`. */
  function ApplyTitleCase(title: string): string {
    JoinWith(CapitalizeAll(Words(title)), ' ')
  }

  /** No leading, trailing or doubled whitespace, and the only whitespace is the plain space. */
  predicate SingleSpaced(s: string) {
    forall i :: 0 <= i < |s| && IsSpace(s[i]) ==>
      s[i] == ' ' && 0 < i < |s| - 1 && !IsSpace(s[i - 1]) && !IsSpace(s[i + 1])
  }

  /** Capitalising keeps a word a word, of the same length. */
  lemma CapitalizeKeepsWord(w: string)
    requires IsWord(w)
    ensures IsWord(Capitalize(w)) && |Capitalize(w)| == |w|
  {
    var c := Capitalize(w);
    var rest := Lower(w[1..]);
    assert c == [UpperChar(w[0])] + rest && |rest| == |w| - 1;
    forall i | 0 <= i < |c|
      ensures !IsSpace(c[i])
    {
      CaseKeepsSpace(w[i]);
      if i > 0 {
        assert c[i] == rest[i - 1] == LowerChar(w[i]);
      }
    }
  }

  lemma CapitalizeIdempotent(w: string)
    ensures Capitalize(Capitalize(w)) == Capitalize(w)
  {
    if w != [] {
      LowerIdempotent(w[1..]);
      assert Capitalize(w)[1..] == Lower(w[1..]);
    }
  }

  lemma CapitalizeAllWords(ws: seq<string>)
    requires forall i :: 0 <= i < |ws| ==> IsWord(ws[i])
    ensures forall i :: 0 <= i < |CapitalizeAll(ws)| ==> IsWord(CapitalizeAll(ws)[i])
  {
    forall i | 0 <= i < |ws|
      ensures IsWord(CapitalizeAll(ws)[i])
    {
      CapitalizeKeepsWord(ws[i]);
    }
  }

  /** Words joined with single spaces never have leading, trailing or doubled whitespace. */
  lemma {:induction false} JoinSingleSpaced(ws: seq<string>)
    requires forall i :: 0 <= i < |ws| ==> IsWord(ws[i])
    ensures SingleSpaced(JoinWith(ws, ' '))
    ensures ws != [] ==> JoinWith(ws, ' ') != []
    ensures ws != [] ==> !IsSpace(JoinWith(ws, ' ')[0]) && !IsSpace(JoinWith(ws, ' ')[|JoinWith(ws, ' ')| - 1])
    decreases |ws|
  {
    if |ws| == 1 {
      assert IsWord(ws[0]);
    } else if |ws| > 1 {
      var w := ws[0];
      assert IsWord(w);
      var rest := JoinWith(ws[1..], ' ');
      var s := w + [' '] + rest;
      JoinSingleSpaced(ws[1..]);
      assert rest != [] && !IsSpace(rest[0]);
      assert forall i :: 0 <= i < |w| ==> s[i] == w[i];
      forall i | 0 <= i < |s| && IsSpace(s[i])
        ensures s[i] == ' ' && 0 < i < |s| - 1 && !IsSpace(s[i - 1]) && !IsSpace(s[i + 1])
      {
        if i == |w| {
          assert s[i - 1] == w[|w| - 1];
          assert s[i + 1] == rest[0];
        } else if i > |w| {
          var j := i - |w| - 1;
          assert s[i] == rest[j];
          assert 0 < j < |rest| - 1;
          assert s[i - 1] == rest[j - 1] && s[i + 1] == rest[j + 1];
        }
      }
    }
  }

  /** The title-cased text has exactly the capitalised words of the input, so in
      particular as many words. */
  lemma TitleCaseWords(title: string)
    ensures Words(ApplyTitleCase(title)) == CapitalizeAll(Words(title))
    ensures |Words(ApplyTitleCase(title))| == |Words(title)|
  {
    CapitalizeAllWords(Words(title));
    WordsOfJoin(CapitalizeAll(Words(title)));
  }

  lemma TitleCaseSingleSpaced(title: string)
    ensures SingleSpaced(ApplyTitleCase(title))
  {
    CapitalizeAllWords(Words(title));
    JoinSingleSpaced(CapitalizeAll(Words(title)));
  }

  lemma TitleCaseIdempotent(title: string)
    ensures ApplyTitleCase(ApplyTitleCase(title)) == ApplyTitleCase(title)
  {
    var ws := Words(title);
    TitleCaseWords(title);
    var cs := CapitalizeAll(ws);
    assert CapitalizeAll(cs) == cs by {
      forall i | 0 <= i < |cs|
        ensures CapitalizeAll(cs)[i] == cs[i]
      {
        CapitalizeIdempotent(ws[i]);
      }
    }
  }

  /** Text that already consists of capitalised words separated by single spaces is
      left as it is. */
  lemma TitleCaseFixed(ws: seq<string>)
    requires forall i :: 0 <= i < |ws| ==> IsWord(ws[i]) && Capitalize(ws[i]) == ws[i]
    ensures ApplyTitleCase(JoinWith(ws, ' ')) == JoinWith(ws, ' ')
  {
    WordsOfJoin(ws);
    assert CapitalizeAll(ws) == ws;
  }
}
