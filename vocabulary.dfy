/** The vocabulary page: merging the built-in word lists with imported words (deduplicated
    by normalised Korean spelling), turning CSV text or JSON rows into imported words, and
    the flashcard session counters. */
module Vocabulary {
  import opened Common
  import opened Text

  datatype Example = Example(kr: string, cn: string)

  datatype Word = Word(
    id: string, kr: string, cn: string, en: string,
    pronunciation: string, level: string, example: Option<Example>)

  /** An imported word remembers the category it was filed under. */
  datatype ImportedWord = ImportedWord(word: Word, category: string)

  datatype Category = Category(id: string, words: seq<Word>)

  /** `(w.kr || '').trim().toLowerCase()`: the key words are deduplicated by. */
  function Key(w: Word): string {
    Lower(Trim(w.kr))
  }

  // ----- Selecting the words of a category -----

  /** Every built-in word, category after category. */
  function AllWords(data: seq<Category>): seq<Word> {
    if data == [] then [] else AllWords(data[..|data| - 1]) + data[|data| - 1].words
  }

  /** `vocabularyData.find(c => c.id === id)`, as the index of the first category with
      that id. */
  function FindCategory(data: seq<Category>, id: string): (r: Option<nat>)
    ensures r.Some? ==> r.value < |data| && data[r.value].id == id
                        && forall j :: 0 <= j < r.value ==> data[j].id != id
    ensures r.None? ==> forall j :: 0 <= j < |data| ==> data[j].id != id
  {
    FirstIndex(data, (c: Category) => c.id == id)
  }

  /** The built-in words shown for a category: all of them for `'all'`, otherwise the
      words of the matching category, or none. */
  function BaseWords(data: seq<Category>, categoryId: string): seq<Word> {
    if categoryId == "all" then AllWords(data)
    else
      var c := FindCategory(data, categoryId);
      if c.Some? then data[c.value].words else []
  }

  /** The imported words filed under the category; all of them for `'all'`. */
  function ImportedIn(imported: seq<ImportedWord>, categoryId: string): (r: seq<ImportedWord>)
    ensures Subsequence(r, imported)
    ensures forall k :: 0 <= k < |r| ==> categoryId == "all" || r[k].category == categoryId
    ensures forall w :: w in imported && (categoryId == "all" || w.category == categoryId) ==> w in r
  {
    if imported == [] then []
    else if categoryId == "all" || imported[0].category == categoryId then
      [imported[0]] + ImportedIn(imported[1..], categoryId)
    else ImportedIn(imported[1..], categoryId)
  }

  /** `imp_<now>_<idx>`: the id an imported word without one receives. */
  function DefaultId(now: nat, idx: nat): string {
    "imp_" + NatToString(now) + "_" + NatToString(idx)
  }

  /** Default ids generated in one pass are distinct. */
  lemma DefaultIdsDistinct(now: nat, i: nat, j: nat)
    requires i != j
    ensures DefaultId(now, i) != DefaultId(now, j)
  {
    var p := "imp_" + NatToString(now) + "_";
    assert DefaultId(now, i) == p + NatToString(i);
    assert DefaultId(now, j) == p + NatToString(j);
    if DefaultId(now, i) == DefaultId(now, j) {
      assert NatToString(i) == DefaultId(now, i)[|p|..];
      assert NatToString(j) == DefaultId(now, j)[|p|..];
      NatToStringRoundTrip(i);
      NatToStringRoundTrip(j);
      assert false;
    }
  }

  /** One imported word as shown: default id, pronunciation and level filled in. */
  function ShownWord(w: Word, now: nat, idx: nat): (r: Word)
    ensures r.kr == w.kr && r.cn == w.cn && r.en == w.en && r.example == w.example
    ensures r.id == (if w.id != [] then w.id else DefaultId(now, idx))
    ensures r.pronunciation == (if w.pronunciation != [] then w.pronunciation else "-")
    ensures r.level == (if w.level != [] then w.level else "Beginner")
    ensures r.id != [] && r.pronunciation != [] && r.level != []
  {
    Word(if w.id != [] then w.id else DefaultId(now, idx), w.kr, w.cn, w.en,
         if w.pronunciation != [] then w.pronunciation else "-",
         if w.level != [] then w.level else "Beginner", w.example)
  }

  /** The imported words of the category, as shown; `idx` counts within the selection. */
  function ExtraWords(imported: seq<ImportedWord>, categoryId: string, now: nat): (r: seq<Word>)
    ensures var sel := ImportedIn(imported, categoryId);
      |r| == |sel| && forall k :: 0 <= k < |sel| ==> r[k] == ShownWord(sel[k].word, now, k)
  {
    var sel := ImportedIn(imported, categoryId);
    seq(|sel|, k requires 0 <= k < |sel| => ShownWord(sel[k].word, now, k))
  }

  /** Every shown imported word of the category keeps its texts and has an id, a
      pronunciation and a level; words without an id of their own get pairwise different
      generated ids. */
  lemma ExtraWordsShown(imported: seq<ImportedWord>, categoryId: string, now: nat)
    ensures var sel := ImportedIn(imported, categoryId);
      var r := ExtraWords(imported, categoryId, now);
      && |r| == |sel|
      && (forall k :: 0 <= k < |r| ==>
            && r[k].kr == sel[k].word.kr && r[k].cn == sel[k].word.cn
            && r[k].en == sel[k].word.en && r[k].example == sel[k].word.example
            && r[k].id != [] && r[k].pronunciation != [] && r[k].level != [])
      && (forall j, k :: 0 <= j < k < |r| && sel[j].word.id == [] && sel[k].word.id == [] ==>
            r[j].id != r[k].id)
  {
    var sel := ImportedIn(imported, categoryId);
    var r := ExtraWords(imported, categoryId, now);
    forall j, k | 0 <= j < k < |r| && sel[j].word.id == [] && sel[k].word.id == []
      ensures r[j].id != r[k].id
    {
      DefaultIdsDistinct(now, j, k);
    }
  }

  // ----- First-wins deduplication -----

  /** `a` is `b` with some elements left out, order kept. */
  predicate Subsequence<T(==)>(a: seq<T>, b: seq<T>)
    decreases |b|
  {
    a == [] || (b != [] && ((a[0] == b[0] && Subsequence(a[1..], b[1..])) || Subsequence(a, b[1..])))
  }

  /** The words kept from `ws` when the keys in `seen` are already taken: a word is kept
      when its key is non-empty and new, and its key is then taken. */
  function DedupFrom(ws: seq<Word>, seen: set<string>): seq<Word>
    decreases |ws|
  {
    if ws == [] then []
    else
      var key := Key(ws[0]);
      if key == [] || key in seen then DedupFrom(ws[1..], seen)
      else [ws[0]] + DedupFrom(ws[1..], seen + {key})
  }

  /** One step of `DedupFrom`. */
  lemma DedupFromStep(ws: seq<Word>, seen: set<string>)
    requires ws != []
    ensures Key(ws[0]) == [] || Key(ws[0]) in seen ==> DedupFrom(ws, seen) == DedupFrom(ws[1..], seen)
    ensures Key(ws[0]) != [] && Key(ws[0]) !in seen ==>
      DedupFrom(ws, seen) == [ws[0]] + DedupFrom(ws[1..], seen + {Key(ws[0])})
  {
  }

  /** One step of `DedupFrom` at index `i` of a list. */
  lemma DedupFromAt(all: seq<Word>, i: nat, seen: set<string>)
    requires i < |all|
    ensures Key(all[i]) == [] || Key(all[i]) in seen ==> DedupFrom(all[i..], seen) == DedupFrom(all[i + 1..], seen)
    ensures Key(all[i]) != [] && Key(all[i]) !in seen ==>
      DedupFrom(all[i..], seen) == [all[i]] + DedupFrom(all[i + 1..], seen + {Key(all[i])})
  {
    assert all[i..][0] == all[i] && all[i..][1..] == all[i + 1..];
    DedupFromStep(all[i..], seen);
  }

  function Dedup(ws: seq<Word>): seq<Word> {
    DedupFrom(ws, {})
  }

  /** The first word of `ws` with the given key. */
  function FirstWithKey(ws: seq<Word>, key: string): Option<Word> {
    if ws == [] then None
    else if Key(ws[0]) == key then Some(ws[0])
    else FirstWithKey(ws[1..], key)
  }

  /** The keys of the words in `ws`. */
  function KeySet(ws: seq<Word>): set<string> {
    set w | w in ws :: Key(w)
  }

  predicate DistinctKeys(ws: seq<Word>) {
    forall i, j :: 0 <= i < j < |ws| ==> Key(ws[i]) != Key(ws[j])
  }

  /** The kept words have non-empty keys not yet taken, pairwise distinct. */
  lemma {:induction false} DedupFromKeys(ws: seq<Word>, seen: set<string>)
    ensures forall k :: 0 <= k < |DedupFrom(ws, seen)| ==>
      Key(DedupFrom(ws, seen)[k]) != [] && Key(DedupFrom(ws, seen)[k]) !in seen
    ensures DistinctKeys(DedupFrom(ws, seen))
    decreases |ws|
  {
    if ws != [] {
      var key := Key(ws[0]);
      if key == [] || key in seen {
        DedupFromKeys(ws[1..], seen);
      } else {
        DedupFromKeys(ws[1..], seen + {key});
        var rest := DedupFrom(ws[1..], seen + {key});
        var r := [ws[0]] + rest;
        assert DedupFrom(ws, seen) == r;
        forall k | 0 <= k < |r| ensures Key(r[k]) != [] && Key(r[k]) !in seen {
          if k > 0 {
            assert r[k] == rest[k - 1];
          }
        }
        ConsDistinct(ws[0], rest);
      }
    }
  }

  /** A word whose key differs from all of a distinct-keyed list extends it. */
  lemma ConsDistinct(w: Word, rest: seq<Word>)
    requires DistinctKeys(rest)
    requires forall k :: 0 <= k < |rest| ==> Key(rest[k]) != Key(w)
    ensures DistinctKeys([w] + rest)
  {
    var r := [w] + rest;
    forall i, j | 0 <= i < j < |r| ensures Key(r[i]) != Key(r[j]) {
      assert r[j] == rest[j - 1];
      if i > 0 {
        assert r[i] == rest[i - 1];
      }
    }
  }

  /** The kept words appear in `ws` in the same order, and each is the first word of
      `ws` with its key. */
  lemma {:induction false} DedupFromFirstWins(ws: seq<Word>, seen: set<string>)
    ensures Subsequence(DedupFrom(ws, seen), ws)
    ensures forall k :: 0 <= k < |DedupFrom(ws, seen)| ==>
      FirstWithKey(ws, Key(DedupFrom(ws, seen)[k])) == Some(DedupFrom(ws, seen)[k])
    decreases |ws|
  {
    if ws != [] {
      var key := Key(ws[0]);
      DedupFromKeys(ws, seen);
      if key == [] || key in seen {
        DedupFromFirstWins(ws[1..], seen);
        var r := DedupFrom(ws[1..], seen);
        assert DedupFrom(ws, seen) == r;
        forall k | 0 <= k < |r| ensures FirstWithKey(ws, Key(r[k])) == Some(r[k]) {
          assert Key(r[k]) != key;
        }
      } else {
        DedupFromFirstWins(ws[1..], seen + {key});
        DedupFromKeys(ws[1..], seen + {key});
        var rest := DedupFrom(ws[1..], seen + {key});
        var r := [ws[0]] + rest;
        assert DedupFrom(ws, seen) == r;
        assert r[1..] == rest;
        forall k | 0 <= k < |r| ensures FirstWithKey(ws, Key(r[k])) == Some(r[k]) {
          if k > 0 {
            assert r[k] == rest[k - 1];
            assert Key(rest[k - 1]) != key;
          }
        }
      }
    }
  }

  /** Every word with a non-empty key is represented: its key was taken before or is the
      key of a kept word. */
  lemma {:induction false} DedupFromCovers(ws: seq<Word>, seen: set<string>)
    ensures forall w :: w in ws && Key(w) != [] ==> Key(w) in seen || Key(w) in KeySet(DedupFrom(ws, seen))
    decreases |ws|
  {
    if ws != [] {
      var key := Key(ws[0]);
      if key == [] || key in seen {
        DedupFromCovers(ws[1..], seen);
      } else {
        DedupFromCovers(ws[1..], seen + {key});
        var r := DedupFrom(ws, seen);
        assert r == [ws[0]] + DedupFrom(ws[1..], seen + {key});
        assert ws[0] in r;
        assert KeySet(DedupFrom(ws[1..], seen + {key})) <= KeySet(r);
        forall w | w in ws && Key(w) != [] ensures Key(w) in seen || Key(w) in KeySet(r) {
          if w != ws[0] {
            assert w in ws[1..];
          }
        }
      }
    }
  }

  /** The result of merging keeps, from the base words followed by the extra words:
      only words with a non-empty key; each key once; the original order; for each key
      its first word; and a word for every non-empty key. */
  lemma DedupProperties(ws: seq<Word>)
    ensures forall k :: 0 <= k < |Dedup(ws)| ==> Key(Dedup(ws)[k]) != []
    ensures DistinctKeys(Dedup(ws))
    ensures Subsequence(Dedup(ws), ws)
    ensures forall k :: 0 <= k < |Dedup(ws)| ==> FirstWithKey(ws, Key(Dedup(ws)[k])) == Some(Dedup(ws)[k])
    ensures forall w :: w in ws && Key(w) != [] ==> Key(w) in KeySet(Dedup(ws))
  {
    DedupFromKeys(ws, {});
    DedupFromFirstWins(ws, {});
    DedupFromCovers(ws, {});
  }

  /** `mergeBaseAndImported(categoryId)`: collects the base words, then the imported
      words of the category, and keeps the first word of every non-empty key, using a
      set of keys seen so far. */
  method MergeBaseAndImported(data: seq<Category>, imported: seq<ImportedWord>, categoryId: string, now: nat)
    returns (unique: seq<Word>)
    ensures unique == Dedup(BaseWords(data, categoryId) + ExtraWords(imported, categoryId, now))
  {
    var base: seq<Word> := [];
    if categoryId == "all" {
      for i := 0 to |data|
        invariant base == AllWords(data[..i])
      {
        assert data[..i + 1][..i] == data[..i];
        base := base + data[i].words;
      }
      assert data[..|data|] == data;
    } else {
      var category := FindCategory(data, categoryId);
      if category.Some? {
        base := base + data[category.value].words;
      }
    }
    assert base == BaseWords(data, categoryId);
    var extra := ExtraWords(imported, categoryId, now);
    unique := KeepFirstOfEachKey(base + extra);
  }

  /** The deduplication loop of `mergeBaseAndImported`: a word is pushed when its key is
      non-empty and not yet in the set of seen keys, which then receives it. */
  method KeepFirstOfEachKey(all: seq<Word>) returns (unique: seq<Word>)
    ensures unique == Dedup(all)
  {
    var seen: set<string> := {};
    unique := [];
    for i := 0 to |all|
      invariant unique + DedupFrom(all[i..], seen) == Dedup(all)
    {
      DedupFromAt(all, i, seen);
      var key := Key(all[i]);
      if key != [] && key !in seen {
        assert unique + [all[i]] + DedupFrom(all[i + 1..], seen + {key}) == Dedup(all);
        seen := seen + {key};
        unique := unique + [all[i]];
      }
    }
  }

  // ----- Import -----

  /** One imported row before normalisation; an absent or falsy field is empty. */
  datatype Row = Row(
    id: string, kr: string, cn: string, en: string, pronunciation: string,
    level: string, category: string, example: Option<Example>)

  /** A piece of the text without the carriage return that ends it, when a newline
      follows the piece. */
  function DropCr(piece: string, followed: bool): (r: string)
    ensures followed && piece != [] && piece[|piece| - 1] == '\r' ==> r + ['\r'] == piece
    ensures !(followed && piece != [] && piece[|piece| - 1] == '\r') ==> r == piece
    ensures |r| <= |piece| && r == piece[..|r|]
  {
    if followed && piece != [] && piece[|piece| - 1] == '\r' then piece[..|piece| - 1] else piece
  }

  /** `text.split(/\r?\n/)`: the pieces between newlines, each without the carriage
      return that preceded its newline. */
  function Lines(text: string): (r: seq<string>)
    ensures var pieces := Split(text, '\n');
      && |r| == |pieces|
      && (forall i :: 0 <= i < |r| - 1 && pieces[i] != [] && pieces[i][|pieces[i]| - 1] == '\r' ==>
            r[i] + ['\r'] == pieces[i])
      && (forall i :: 0 <= i < |r| && !(i < |r| - 1 && pieces[i] != [] && pieces[i][|pieces[i]| - 1] == '\r') ==>
            r[i] == pieces[i])
    ensures forall i, j :: 0 <= i < |r| && 0 <= j < |r[i]| ==> r[i][j] != '\n'
  {
    var pieces := Split(text, '\n');
    var r := seq(|pieces|, i requires 0 <= i < |pieces| => DropCr(pieces[i], i < |pieces| - 1));
    SplitJoin(text, '\n');
    forall i, j | 0 <= i < |r| && 0 <= j < |r[i]| ensures r[i][j] != '\n' {
      assert pieces[i] in pieces && r[i][j] == pieces[i][j];
    }
    r
  }

  /** `.filter(l => l.trim())`: the lines that are not blank. */
  function NonBlank(lines: seq<string>): (r: seq<string>)
    ensures Subsequence(r, lines)
    ensures forall k :: 0 <= k < |r| ==> Trim(r[k]) != []
    ensures forall l :: l in lines && Trim(l) != [] ==> l in r
  {
    if lines == [] then []
    else if Trim(lines[0]) != [] then [lines[0]] + NonBlank(lines[1..])
    else NonBlank(lines[1..])
  }

  /** `header.findIndex(h => h.toLowerCase() === key)`, for a lower-cased key. */
  function FindColumn(header: seq<string>, key: string): (r: Option<nat>)
    ensures r.Some? ==> r.value < |header| && Lower(header[r.value]) == key
                        && forall j :: 0 <= j < r.value ==> Lower(header[j]) != key
    ensures r.None? ==> forall j :: 0 <= j < |header| ==> Lower(header[j]) != key
  {
    FirstIndex(header, (h: string) => Lower(h) == key)
  }

  /** `cols[idx(name)] || default`: the cell under the column named `name`, compared
      case-insensitively; the default when the column is missing, the row is too short
      or the cell is empty. */
  function Cell(cols: seq<string>, header: seq<string>, name: string, default: string): (r: string)
    ensures forall h :: (0 <= h < |header| && h < |cols| && cols[h] != [] && Lower(header[h]) == Lower(name)
                         && forall j :: 0 <= j < h ==> Lower(header[j]) != Lower(name)) ==> r == cols[h]
    ensures (forall j :: 0 <= j < |header| ==> Lower(header[j]) != Lower(name)) ==> r == default
    ensures var c := FindColumn(header, Lower(name));
      c.Some? && (c.value >= |cols| || cols[c.value] == []) ==> r == default
    ensures r == default || r in cols
  {
    var c := FindColumn(header, Lower(name));
    if c.Some? && c.value < |cols| && cols[c.value] != [] then cols[c.value] else default
  }

  /** The row one CSV line describes. */
  function CsvRow(header: seq<string>, line: string): Row {
    var cols := Split(line, ',');
    var exampleKr := Cell(cols, header, "exampleKr", "");
    var exampleCn := Cell(cols, header, "exampleCn", "");
    Row(
      Cell(cols, header, "id", ""), Cell(cols, header, "kr", ""), Cell(cols, header, "cn", ""),
      Cell(cols, header, "en", ""), Cell(cols, header, "pronunciation", "-"),
      Cell(cols, header, "level", "Beginner"), Cell(cols, header, "category", "daily"),
      if exampleKr != [] || exampleCn != [] then Some(Example(exampleKr, exampleCn)) else None)
  }

  /** The CSV branch of `handleImportFile`: the first non-blank line, split on commas and
      trimmed, is the header, and every later non-blank line is a row. Text without a
      non-blank line throws, and nothing is imported: None. */
  function ParseCsv(text: string): Option<seq<Row>> {
    var lines := NonBlank(Lines(text));
    if lines == [] then None
    else
      var cells := Split(lines[0], ',');
      var header := seq(|cells|, i requires 0 <= i < |cells| => Trim(cells[i]));
      Some(seq(|lines| - 1, i requires 0 <= i < |lines| - 1 => CsvRow(header, lines[i + 1])))
  }

  /** Parsing yields no rows exactly for text without a non-blank line, and one row per
      non-blank line after the header otherwise. */
  lemma ParseCsvShape(text: string)
    ensures ParseCsv(text).None? <==> forall l :: l in Lines(text) ==> Trim(l) == []
    ensures ParseCsv(text).Some? ==> |ParseCsv(text).value| == |NonBlank(Lines(text))| - 1
  {
    var lines := NonBlank(Lines(text));
    if lines != [] {
      assert lines[0] in lines;
      SubsequenceMember(lines, Lines(text), lines[0]);
    }
  }

  /** Every element of a subsequence is an element of the sequence. */
  lemma {:induction false} SubsequenceMember<T>(a: seq<T>, b: seq<T>, x: T)
    requires Subsequence(a, b) && x in a
    ensures x in b
    decreases |b|
  {
    if a[0] == b[0] && Subsequence(a[1..], b[1..]) {
      if x != a[0] {
        SubsequenceMember(a[1..], b[1..], x);
      }
    } else {
      SubsequenceMember(a, b[1..], x);
    }
  }

  /** A row has the two fields a word needs. */
  predicate Complete(r: Row) {
    r.kr != [] && r.cn != []
  }

  /** `.filter(r => r && r.kr && r.cn)`. */
  function CompleteRows(rows: seq<Row>): (r: seq<Row>)
    ensures Subsequence(r, rows)
    ensures forall k :: 0 <= k < |r| ==> Complete(r[k])
    ensures forall x :: x in rows && Complete(x) ==> x in r
  {
    if rows == [] then []
    else if Complete(rows[0]) then [rows[0]] + CompleteRows(rows[1..])
    else CompleteRows(rows[1..])
  }

  /** One kept row as an imported word with its defaults. */
  function NormalRow(r: Row, now: nat, idx: nat): (w: ImportedWord)
    ensures w.word.kr == r.kr && w.word.cn == r.cn && w.word.example == r.example
    ensures w.word.id == (if r.id != [] then r.id else DefaultId(now, idx))
    ensures w.word.en == r.en
    ensures w.word.pronunciation == (if r.pronunciation != [] then r.pronunciation else "-")
    ensures w.word.level == (if r.level != [] then r.level else "Beginner")
    ensures w.category == (if r.category != [] then r.category else "daily")
    ensures w.word.id != [] && w.word.pronunciation != [] && w.word.level != [] && w.category != []
  {
    ImportedWord(
      Word(if r.id != [] then r.id else DefaultId(now, idx), r.kr, r.cn, r.en,
           if r.pronunciation != [] then r.pronunciation else "-",
           if r.level != [] then r.level else "Beginner", r.example),
      if r.category != [] then r.category else "daily")
  }

  /** The normalisation step of `handleImportFile`. */
  function Normalize(rows: seq<Row>, now: nat): seq<ImportedWord> {
    var kept := CompleteRows(rows);
    seq(|kept|, i requires 0 <= i < |kept| => NormalRow(kept[i], now, i))
  }

  /** Normalisation keeps exactly the rows with a Korean and a Chinese text, in order,
      and every word it yields has an id, a pronunciation, a level and a category. */
  lemma NormalizeProperties(rows: seq<Row>, now: nat)
    ensures |Normalize(rows, now)| == |CompleteRows(rows)|
    ensures forall k :: 0 <= k < |Normalize(rows, now)| ==>
      var w := Normalize(rows, now)[k];
      && w.word.kr == CompleteRows(rows)[k].kr && w.word.cn == CompleteRows(rows)[k].cn
      && w.word.kr != [] && w.word.cn != [] && w.word.id != [] && w.word.pronunciation != []
      && w.word.level != [] && w.category != []
    ensures forall j, k :: 0 <= j < k < |Normalize(rows, now)| && CompleteRows(rows)[j].id == []
                           && CompleteRows(rows)[k].id == [] ==>
      Normalize(rows, now)[j].word.id != Normalize(rows, now)[k].word.id
  {
    var kept, r := CompleteRows(rows), Normalize(rows, now);
    forall j, k | 0 <= j < k < |r| && kept[j].id == [] && kept[k].id == []
      ensures r[j].word.id != r[k].word.id
    {
      DefaultIdsDistinct(now, j, k);
    }
  }

  // ----- The page -----

  datatype ViewMode = CardView | ListView

  class VocabularyPage {
    var selectedCategory: string
    var viewMode: ViewMode
    var importedWords: seq<ImportedWord>
    var currentCards: seq<Word>
    var currentIndex: nat
    var isFlipped: bool
    var learned: nat
    var review: nat

    /** The index is on a card (or 0 without cards), and every card passed was counted
      once as learned or to review. */
    predicate Valid()
      reads this
    {
      (currentIndex < |currentCards| || (currentCards == [] && currentIndex == 0))
      && learned + review == currentIndex
    }

    constructor()
      ensures Valid()
      ensures selectedCategory == "all" && viewMode == CardView && importedWords == []
      ensures currentCards == [] && currentIndex == 0 && !isFlipped && learned == 0 && review == 0
    {
      selectedCategory := "all";
      viewMode := CardView;
      importedWords := [];
      currentCards := [];
      currentIndex := 0;
      isFlipped := false;
      learned := 0;
      review := 0;
    }

    /** The effect run when the category or the view mode changes: the merged words
      become the cards and the session starts over. */
    method LoadCards(data: seq<Category>, now: nat)
      modifies this`currentCards, this`currentIndex, this`isFlipped, this`learned, this`review
      ensures Valid()
      ensures currentCards == Dedup(BaseWords(data, selectedCategory) + ExtraWords(importedWords, selectedCategory, now))
      ensures currentIndex == 0 && !isFlipped && learned == 0 && review == 0
    {
      currentCards := MergeBaseAndImported(data, importedWords, selectedCategory, now);
      currentIndex := 0;
      isFlipped := false;
      learned, review := 0, 0;
    }

    /** Choosing a category reloads the cards; choosing the one already selected is no
      change of state, so the effect does not run and the session goes on. */
    method SelectCategory(id: string, data: seq<Category>, now: nat)
      modifies this
      ensures selectedCategory == id && viewMode == old(viewMode) && importedWords == old(importedWords)
      ensures id == old(selectedCategory) ==> unchanged(this)
      ensures id != old(selectedCategory) ==>
        && Valid()
        && currentCards == Dedup(BaseWords(data, id) + ExtraWords(importedWords, id, now))
        && currentIndex == 0 && !isFlipped && learned == 0 && review == 0
    {
      if id == selectedCategory {
        return;
      }
      selectedCategory := id;
      LoadCards(data, now);
    }

    /** Switching between cards and list reloads the cards; choosing the mode already
      shown changes nothing. */
    method SetViewMode(mode: ViewMode, data: seq<Category>, now: nat)
      modifies this
      ensures viewMode == mode && selectedCategory == old(selectedCategory) && importedWords == old(importedWords)
      ensures mode == old(viewMode) ==> unchanged(this)
      ensures mode != old(viewMode) ==>
        && Valid()
        && currentCards == Dedup(BaseWords(data, selectedCategory) + ExtraWords(importedWords, selectedCategory, now))
        && currentIndex == 0 && !isFlipped && learned == 0 && review == 0
    {
      if mode == viewMode {
        return;
      }
      viewMode := mode;
      LoadCards(data, now);
    }

    /** Importing a CSV file appends the normalised rows; text that does not parse
      imports nothing. The cards are not reloaded. */
    method ImportCsv(text: string, now: nat)
      modifies this`importedWords
      ensures ParseCsv(text).None? ==> importedWords == old(importedWords)
      ensures ParseCsv(text).Some? ==> importedWords == old(importedWords) + Normalize(ParseCsv(text).value, now)
    {
      var rows := ParseCsv(text);
      if rows.Some? {
        importedWords := importedWords + Normalize(rows.value, now);
      }
    }

    /** Importing JSON rows (the array, or its `words` field) appends them normalised. */
    method ImportRows(rows: seq<Row>, now: nat)
      modifies this`importedWords
      ensures importedWords == old(importedWords) + Normalize(rows, now)
    {
      importedWords := importedWords + Normalize(rows, now);
    }

    /** `handleNext(known)`: at the last card (or without cards) nothing happens;
      otherwise the card counts as learned or to review and the next card shows. */
    method HandleNext(known: bool)
      requires Valid()
      modifies this`learned, this`review, this`currentIndex, this`isFlipped
      ensures Valid()
      ensures old(currentIndex) >= |currentCards| - 1 ==>
        learned == old(learned) && review == old(review) && currentIndex == old(currentIndex) && isFlipped == old(isFlipped)
      ensures old(currentIndex) < |currentCards| - 1 ==>
        && currentIndex == old(currentIndex) + 1 && !isFlipped
        && learned == old(learned) + (if known then 1 else 0)
        && review == old(review) + (if known then 0 else 1)
    {
      if currentIndex >= |currentCards| - 1 {
        return;
      }
      if known {
        learned := learned + 1;
      } else {
        review := review + 1;
      }
      currentIndex := currentIndex + 1;
      isFlipped := false;
    }

    /** `handleFlip()`. */
    method HandleFlip()
      modifies this`isFlipped
      ensures isFlipped == !old(isFlipped)
    {
      isFlipped := !isFlipped;
    }
  }
}
