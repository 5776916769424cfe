/** Which operation words mean what: `normalize_operation` against the words themselves. */
module Spelling {
  import opened Digest
  import opened Identity
  import opened Mutation
  import opened Orders
  import Utf8

  /** Every character Python's `str.strip` removes. */
  const WHITE_SPACE: string :=
    "\t\n\U{0b}\U{0c}\r\U{1c}\U{1d}\U{1e}\U{1f} \U{85}\U{a0}\U{1680}\U{2000}\U{2001}\U{2002}\U{2003}\U{2004}"
    + "\U{2005}\U{2006}\U{2007}\U{2008}\U{2009}\U{200a}\U{2028}\U{2029}\U{202f}\U{205f}\U{3000}"

  predicate AllWhite(s: string)
  {
    forall i :: 0 <= i < |s| ==> s[i] in WHITE_SPACE
  }

  /** The same letters, each small or capital. */
  predicate CaseEqual(s: string, word: string)
  {
    && |s| == |word|
    && forall i :: 0 <= i < |s| ==> s[i] == word[i] || s[i] as int == word[i] as int - 32
  }

  predicate SmallLetters(word: string)
  {
    word != "" && forall i :: 0 <= i < |word| ==> 'a' <= word[i] <= 'z'
  }

  /** White space, the word in any case, white space. */
  ghost predicate Spells(s: string, word: string)
  {
    exists i, j :: SpellsAt(s, word, i, j)
  }

  predicate SpellsAt(s: string, word: string, i: int, j: int)
  {
    0 <= i <= j <= |s| && AllWhite(s[..i]) && CaseEqual(s[i..j], word) && AllWhite(s[j..])
  }

  lemma WhiteSpaceExactly(c: char)
    ensures IsSpace(c) <==> c in WHITE_SPACE
  {
    assert WHITE_SPACE[0] == '\t' && WHITE_SPACE[1] == '\n' && WHITE_SPACE[2] == '\U{0b}' && WHITE_SPACE[3] == '\U{0c}';
    assert WHITE_SPACE[4] == '\r' && WHITE_SPACE[5] == '\U{1c}' && WHITE_SPACE[6] == '\U{1d}';
    assert WHITE_SPACE[7] == '\U{1e}' && WHITE_SPACE[8] == '\U{1f}' && WHITE_SPACE[9] == ' ';
    assert WHITE_SPACE[10] == '\U{85}' && WHITE_SPACE[11] == '\U{a0}' && WHITE_SPACE[12] == '\U{1680}';
    assert WHITE_SPACE[13] == '\U{2000}' && WHITE_SPACE[14] == '\U{2001}' && WHITE_SPACE[15] == '\U{2002}';
    assert WHITE_SPACE[16] == '\U{2003}' && WHITE_SPACE[17] == '\U{2004}' && WHITE_SPACE[18] == '\U{2005}';
    assert WHITE_SPACE[19] == '\U{2006}' && WHITE_SPACE[20] == '\U{2007}' && WHITE_SPACE[21] == '\U{2008}';
    assert WHITE_SPACE[22] == '\U{2009}' && WHITE_SPACE[23] == '\U{200a}' && WHITE_SPACE[24] == '\U{2028}';
    assert WHITE_SPACE[25] == '\U{2029}' && WHITE_SPACE[26] == '\U{202f}' && WHITE_SPACE[27] == '\U{205f}';
    assert WHITE_SPACE[28] == '\U{3000}' && |WHITE_SPACE| == 29;
  }

  // ---------- stripping ----------

  lemma {:induction false} StripLeftSplits(s: string) returns (i: nat)
    ensures i <= |s| && AllWhite(s[..i]) && StripLeft(s) == s[i..] && (i < |s| ==> !IsSpace(s[i]))
  {
    hide IsSpace;
    if s != "" && IsSpace(s[0]) {
      WhiteSpaceExactly(s[0]);
      var n := StripLeftSplits(s[1..]);
      i := n + 1;
      var t := s[1..];
      assert forall k :: 1 <= k < i ==> s[k] == t[..n][k - 1];
      assert s[i..] == t[n..];
    } else {
      i := 0;
      assert s[..0] == "" && s[0..] == s;
    }
  }

  lemma {:induction false} StripRightSplits(s: string) returns (j: nat)
    ensures j <= |s| && AllWhite(s[j..]) && StripRight(s) == s[..j] && (j > 0 ==> !IsSpace(s[j - 1]))
  {
    hide IsSpace;
    if s != "" && IsSpace(s[|s| - 1]) {
      WhiteSpaceExactly(s[|s| - 1]);
      var t := s[..|s| - 1];
      j := StripRightSplits(t);
      assert forall k :: j <= k < |t| ==> s[k] == t[j..][k - j];
      assert forall k :: 0 <= k < |s[j..]| ==> s[j..][k] == s[j + k];
      assert s[..j] == t[..j];
    } else {
      j := |s|;
      assert s[j..] == "" && s[..j] == s;
    }
  }

  lemma {:induction false} StripLeftTo(s: string, i: nat)
    requires i < |s| && AllWhite(s[..i]) && !IsSpace(s[i])
    ensures StripLeft(s) == s[i..]
    decreases i
  {
    hide IsSpace;
    if i > 0 {
      var t := s[1..];
      assert s[..i][0] == s[0];
      WhiteSpaceExactly(s[0]);
      var x, y := t[..i - 1], s[..i];
      assert forall k :: 0 <= k < |x| ==> x[k] == y[k + 1];
      StripLeftTo(t, i - 1);
      assert t[i - 1..] == s[i..];
    }
  }

  lemma {:induction false} StripRightTo(s: string, j: nat)
    requires 0 < j <= |s| && AllWhite(s[j..]) && !IsSpace(s[j - 1])
    ensures StripRight(s) == s[..j]
    decreases |s| - j
  {
    hide IsSpace;
    if j < |s| {
      var n := |s| - 1;
      var t := s[..n];
      assert s[j..][n - j] == s[n];
      WhiteSpaceExactly(s[n]);
      assert forall k :: 0 <= k < n - j ==> t[j..][k] == s[j..][k];
      StripRightTo(t, j);
      assert t[..j] == s[..j];
    } else {
      assert s[..j] == s;
    }
  }

  // ---------- lower case ----------

  lemma {:induction false} LowerIsCase(s: string, word: string)
    requires forall i :: 0 <= i < |word| ==> 'a' <= word[i] <= 'z'
    ensures Lower(s) == word <==> CaseEqual(s, word)
    decreases |s|
  {
    if s != "" && word != "" {
      var t, rest := s[1..], word[1..];
      LowerIsCase(t, rest);
      assert Lower(s)[1..] == Lower(t) && word == [word[0]] + rest;
      assert Lower(s) == word <==> Lower(s)[0] == word[0] && Lower(t) == rest;
      assert CaseEqual(s, word) <==> CaseEqual(s[..1], word[..1]) && CaseEqual(t, rest) by {
        CaseSplits(s, word);
      }
      assert s[..1][0] == s[0] && word[..1][0] == word[0];
    }
  }

  lemma CaseSplits(s: string, word: string)
    requires s != "" && word != ""
    ensures CaseEqual(s, word) <==> CaseEqual(s[..1], word[..1]) && CaseEqual(s[1..], word[1..])
  {
    var t, rest := s[1..], word[1..];
    assert forall i :: 0 <= i < |t| && i < |rest| ==> t[i] == s[i + 1] && rest[i] == word[i + 1];
    assert forall i :: 1 <= i < |s| && i < |word| ==> s[i] == t[i - 1] && word[i] == rest[i - 1];
    assert s[..1][0] == s[0] && word[..1][0] == word[0];
  }

  // ---------- the words ----------

  /** Stripping and lowering yields a word exactly for its spellings. */
  lemma NormalizedExactly(s: string, word: string)
    requires SmallLetters(word)
    ensures Lower(StripRight(StripLeft(s))) == word <==> Spells(s, word)
  {
    if Lower(StripRight(StripLeft(s))) == word {
      hide Lower, IsSpace, StripLeft, StripRight;
      var i := StripLeftSplits(s);
      var t := s[i..];
      var j := StripRightSplits(t);
      LowerIsCase(t[..j], word);
      assert t[..j] == s[i..i + j] && t[j..] == s[i + j..];
      assert SpellsAt(s, word, i, i + j);
    }
    if Spells(s, word) {
      var i, j :| SpellsAt(s, word, i, j);
      SpellingNormalizes(s, word, i, j);
    }
  }

  lemma WordEnds(s: string, word: string, i: nat, j: nat)
    requires SmallLetters(word) && SpellsAt(s, word, i, j)
    ensures i < j <= |s| && !IsSpace(s[i]) && !IsSpace(s[j - 1])
  {
    hide AllWhite;
    var m := s[i..j];
    assert m[0] == s[i] && m[|m| - 1] == s[j - 1];
  }

  lemma LettersOnly(word: string)
    requires SmallLetters(word)
    ensures forall i :: 0 <= i < |word| ==> 'a' <= word[i] <= 'z'
  {
  }

  lemma SpellingNormalizes(s: string, word: string, i: nat, j: nat)
    requires SmallLetters(word) && SpellsAt(s, word, i, j)
    ensures Lower(StripRight(StripLeft(s))) == word
  {
    hide Lower, IsSpace, StripLeft, StripRight, AllWhite, CaseEqual, SmallLetters;
    WordEnds(s, word, i, j);
    LettersOnly(word);
    var m := s[i..j];
    StripLeftTo(s, i);
    var t := s[i..];
    assert t[j - i..] == s[j..] && t[j - i - 1] == s[j - 1];
    StripRightTo(t, j - i);
    assert t[..j - i] == m;
    LowerIsCase(m, word);
  }

  ghost predicate SpellsDelete(s: string)
  {
    Spells(s, "delete") || Spells(s, "d")
  }

  ghost predicate SpellsUpsert(s: string)
  {
    Spells(s, "insert") || Spells(s, "update") || Spells(s, "upsert") || Spells(s, "i") || Spells(s, "u")
  }

  /** The vocabulary: two words delete, five upsert, in any case and between white space, and every
      other text is invalid. */
  lemma SpelledExactly(s: string)
    ensures NormalizeOperation(s) == Success("delete") <==> SpellsDelete(s)
    ensures NormalizeOperation(s) == Success("upsert") <==> SpellsUpsert(s)
    ensures NormalizeOperation(s) == Failure(InvalidInput) <==> !SpellsDelete(s) && !SpellsUpsert(s)
  {
    NormalizedExactly(s, "delete");
    NormalizedExactly(s, "d");
    NormalizedExactly(s, "insert");
    NormalizedExactly(s, "update");
    NormalizedExactly(s, "upsert");
    NormalizedExactly(s, "i");
    NormalizedExactly(s, "u");
    hide Lower, StripLeft, StripRight, Spells;
    assert "delete"[0] == 'd' && "d"[0] == 'd' && "upsert"[0] == 'u';
    assert "insert"[0] == 'i' && "update"[0] == 'u' && "i"[0] == 'i' && "u"[0] == 'u';
  }

  /** A snapshot of one row: a tombstone for a delete word, a live row for an upsert word, refused for
      any other. */
  method CollapseOneRow(row: MutationInput, w: int, s: int, sha: Hash) returns (r: Outcome<seq<TerminalMutation>>)
    ensures !(0 <= w < 0x8000_0000_0000_0000 && 0 <= s < 0x8000_0000_0000_0000) ==> r == Failure(InvalidInput)
    ensures !SpellsDelete(row.operation) && !SpellsUpsert(row.operation) ==> r == Failure(InvalidInput)
    ensures r.Success? ==>
              && |r.value| == 1 && r.value[0].tenant == row.tenant && r.value[0].namespace == row.namespace
              && r.value[0].org == row.org && r.value[0].recordId == row.recordId
              && r.value[0].ts == row.ts && r.value[0].payload == row.payload
              && r.value[0].windowSeq == w && r.value[0].sourceSequence == s
              && (r.value[0].operation == "delete" <==> SpellsDelete(row.operation))
              && (r.value[0].operation == "upsert" <==> SpellsUpsert(row.operation))
    ensures 0 <= w < 0x8000_0000_0000_0000 && 0 <= s < 0x8000_0000_0000_0000 && Acceptable(row) ==> r.Success?
  {
    SpelledExactly(row.operation);
    hide NormalizeOperation, EventPreimage;
    r := CollapseSnapshotMutations([row], w, s, sha);
    assert AllAcceptable([row]) ==> Acceptable([row][0]);
    if r.Success? {
      OneRowCollapses(row, w, s, sha, r.value);
    } else {
      TwoErrors(r.error);
    }
  }

  lemma TwoErrors(e: CollapseError)
    ensures e == InvalidInput || e == MutationConflict
  {
  }

  lemma OneRowCollapses(row: MutationInput, w: int, s: int, sha: Hash, out: seq<TerminalMutation>)
    requires AllAcceptable([row]) && IsCollapse([row], w, s, sha, out)
    ensures Acceptable(row) && out == [Terminal(row, w, s, sha)]
  {
    hide Preimage, NormalizeOperation, Acceptable, KeyLess, Terminal, TerminalKey;
    assert [row][0] == row && Acceptable(row);
    assert Represented([row][0], out, sha);
    forall j | 0 <= j < |out| ensures out[j] == Terminal(row, w, s, sha) {
      assert IsTerminalOf(out[j], [row], w, s, sha);
    }
    if |out| > 1 {
      assert TerminalLess(out[0], out[1]);
      KeyTrichotomy(TerminalKey(out[0]), TerminalKey(out[1]));
    }
  }

  // ---------- conflicts by columns ----------

  predicate SameTarget(a: MutationInput, b: MutationInput)
  {
    a.tenant == b.tenant && a.namespace == b.namespace && a.org == b.org && a.recordId == b.recordId
  }

  /** Two rows say the same: both delete or both upsert, one instant, payloads equal up to key order. */
  ghost predicate SameContent(a: MutationInput, b: MutationInput)
  {
    && (SpellsDelete(a.operation) <==> SpellsDelete(b.operation)) && a.ts == b.ts
    && Same(Mapping(a.payload), Mapping(b.payload))
  }

  ghost predicate Disagree(rows: seq<MutationInput>, i: int, j: int)
  {
    0 <= i < j < |rows| && SameTarget(rows[i], rows[j]) && !SameContent(rows[i], rows[j])
  }

  lemma SamePreimageExactly(a: MutationInput, b: MutationInput)
    requires Acceptable(a) && Acceptable(b) && WellFormed(Mapping(a.payload)) && WellFormed(Mapping(b.payload))
    requires SameTarget(a, b)
    ensures Preimage(a) == Preimage(b) <==> SameContent(a, b)
  {
    SpelledExactly(a.operation);
    SpelledExactly(b.operation);
    hide NormalizeOperation, EventPreimage, SpellsDelete, SpellsUpsert, Same, WellFormed;
    EventPreimageInjective(RowEvent(a), RowEvent(b));
    assert "delete"[0] != "upsert"[0];
  }

  /** A snapshot conflicts exactly when two rows of one record say different things. */
  lemma ConflictByColumns(rows: seq<MutationInput>, sha: Hash)
    requires AllAcceptable(rows) && NoCollision(rows, sha)
    requires forall i :: 0 <= i < |rows| ==> WellFormed(Mapping(rows[i].payload))
    ensures Conflicting(rows, sha) <==> exists i, j :: Disagree(rows, i, j)
  {
    hide Acceptable, Preimage, SameContent, WellFormed;
    if Conflicting(rows, sha) {
      var i, j :| 0 <= i < j < |rows| && RowKey(rows[i]) == RowKey(rows[j])
                  && sha(Preimage(rows[i])) != sha(Preimage(rows[j]));
      SamePreimageExactly(rows[i], rows[j]);
      assert Disagree(rows, i, j);
    }
    if i, j :| Disagree(rows, i, j) {
      SamePreimageExactly(rows[i], rows[j]);
    }
  }

  // ---------- the order of a collapse ----------

  /** Code points at the first difference, or the shorter text when there is none. */
  ghost predicate Precedes(a: string, b: string)
  {
    || a < b
    || exists k :: 0 <= k < |a| && k < |b| && a[..k] == b[..k] && a[k] < b[k]
  }

  lemma {:induction false} PointsOf(s: string, k: nat)
    requires k <= |s|
    ensures |Utf8.CodePoints(s)| == |s| && Utf8.CodePoints(s[..k]) == Utf8.CodePoints(s)[..k]
    ensures k < |s| ==> Utf8.CodePoints(s)[k] == s[k] as int
  {
    if s != "" && k > 0 {
      PointsOf(s[1..], k - 1);
      assert s[..k][1..] == s[1..][..k - 1];
    }
  }

  lemma {:induction false} SamePoints(a: string, b: string)
    requires Utf8.CodePoints(a) == Utf8.CodePoints(b)
    ensures a == b
  {
    if a != "" {
      assert Utf8.CodePoints(a)[1..] == Utf8.CodePoints(a[1..]) && Utf8.CodePoints(b)[1..] == Utf8.CodePoints(b[1..]);
      assert a[0] as int == Utf8.CodePoints(a)[0] == b[0] as int;
      SamePoints(a[1..], b[1..]);
      assert a == [a[0]] + a[1..] && b == [b[0]] + b[1..];
    }
  }

  lemma TextLessPrecedes(a: string, b: string)
    requires TextLess(a, b)
    ensures Precedes(a, b)
  {
    var x, y := Utf8.CodePoints(a), Utf8.CodePoints(b);
    LexExactly(x, y);
    if x < y {
      PointsOf(b, |x|);
      SamePoints(a, b[..|x|]);
    } else {
      var k :| 0 <= k < |x| && k < |y| && x[..k] == y[..k] && x[k] < y[k];
      PointsOf(a, k);
      PointsOf(b, k);
      SamePoints(a[..k], b[..k]);
      assert a[k] < b[k];
    }
  }

  /** Collapse output comes by tenant, then namespace, then organization, then record. */
  lemma CollapseInOrder(
    rows: seq<MutationInput>, w: int, s: int, sha: Hash, out: seq<TerminalMutation>, i: nat, j: nat)
    requires AllAcceptable(rows) && IsCollapse(rows, w, s, sha, out) && i < j < |out|
    ensures var a, b := out[i], out[j];
            || Precedes(a.tenant, b.tenant)
            || (a.tenant == b.tenant && Precedes(a.namespace, b.namespace))
            || (a.tenant == b.tenant && a.namespace == b.namespace && Precedes(a.org, b.org))
            || (a.tenant == b.tenant && a.namespace == b.namespace && a.org == b.org
                && Precedes(a.recordId, b.recordId))
  {
    var a, b := out[i], out[j];
    assert TerminalLess(a, b);
    hide TextLess, Precedes;
    if a.tenant != b.tenant {
      TextLessPrecedes(a.tenant, b.tenant);
    } else if a.namespace != b.namespace {
      TextLessPrecedes(a.namespace, b.namespace);
    } else if a.org != b.org {
      TextLessPrecedes(a.org, b.org);
    } else {
      TextLessPrecedes(a.recordId, b.recordId);
    }
  }
}
