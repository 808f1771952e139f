/**
  The dream journal and the read-only views the page derives from it: the
  statistics row (most frequent emotion and mode) and the listing of the
  last five dreams, newest first, each with a 200-character excerpt.
 */
module Journal {
  import opened Wrappers

  /** The choices of "Perasaan dominan dalam mimpi"; `TidakYakin` ("Tidak yakin") is the default. */
  datatype Emotion = TidakYakin | Bahagia | Takut | Sedih | Marah | Bingung | Tenang | Cemas | Excited | Nostalgic

  /** The choices of "Pilih pendekatan interpretasi"; `PsikologiUmum` is the default. */
  datatype Mode = PsikologiUmum | Jungian | Freudian | SimbolismeBudaya | PersonalGrowth

  /** One recorded interpretation (`current_interpretation` and the journal's elements). */
  datatype Entry = Entry(
    dream: string,
    interpretation: string,
    emotion: Emotion,
    context: string,
    timestamp: real,
    mode: Mode)

  const ExcerptLength: nat := 200
  const ListingSize: nat := 5

  /** `dream[:200] + ('...' if len(dream) > 200 else '')`. */
  function Excerpt(dream: string): (r: string)
    ensures |dream| <= ExcerptLength ==> r == dream
    ensures |dream| > ExcerptLength ==> |r| == ExcerptLength + 3 && r == dream[..ExcerptLength] + "..."
  {
    if |dream| > ExcerptLength then dream[..ExcerptLength] + "..." else dream
  }

  /** The excerpt always starts with the dream's first 200 characters (all of
      it when shorter), and "..." is appended exactly when the dream is longer
      than 200 characters. */
  lemma ExcerptSpec(dream: string)
    ensures var shown := if |dream| <= ExcerptLength then dream else dream[..ExcerptLength];
      Excerpt(dream)[..|shown|] == shown
    ensures |dream| > ExcerptLength <==> |Excerpt(dream)| == ExcerptLength + 3
    ensures |dream| > ExcerptLength ==> Excerpt(dream)[ExcerptLength..] == "..."
    ensures |Excerpt(dream)| <= ExcerptLength + 3
  {
  }

  function Reversed<T>(xs: seq<T>): (r: seq<T>)
    ensures |r| == |xs|
  {
    if xs == [] then [] else Reversed(xs[1..]) + [xs[0]]
  }

  lemma {:induction false} ReversedAt<T>(xs: seq<T>, i: nat)
    requires i < |xs|
    ensures Reversed(xs)[i] == xs[|xs| - 1 - i]
    decreases |xs|
  {
    if i < |xs| - 1 {
      ReversedAt(xs[1..], i);
    }
  }

  /** One line of the listing: "Mimpi #number" and its entry. */
  datatype Listed = Listed(number: nat, entry: Entry)

  /** `enumerate(...)` with the shown number counting down from `total`. */
  function Numbered(entries: seq<Entry>, total: nat): (r: seq<Listed>)
    requires |entries| <= total
    ensures |r| == |entries|
  {
    seq(|entries|, i requires 0 <= i < |entries| => Listed(total - i, entries[i]))
  }

  /** `reversed(dream_journal[-5:])`, numbered `total_dreams - i`. */
  function Recent(journal: seq<Entry>): (r: seq<Listed>)
    ensures |r| == if |journal| < ListingSize then |journal| else ListingSize
    ensures forall i :: 0 <= i < |r| ==> r[i].number == |journal| - i
    ensures forall i :: 0 <= i < |r| ==> 1 <= r[i].number <= |journal| && r[i].entry == journal[r[i].number - 1]
  {
    var n := |journal|;
    var lastFive := if n <= ListingSize then journal else journal[n - ListingSize..];
    var r := Numbered(Reversed(lastFive), n);
    forall i | 0 <= i < |r| ensures r[i].entry == journal[n - 1 - i] {
      ReversedAt(lastFive, i);
    }
    r
  }

  /** The emotions of the journal, in order, without the "Tidak yakin" ones. */
  function RatedEmotions(journal: seq<Entry>): (r: seq<Emotion>)
    decreases |journal|
  {
    if journal == [] then []
    else
      var last := journal[|journal| - 1];
      RatedEmotions(journal[..|journal| - 1]) + (if last.emotion == TidakYakin then [] else [last.emotion])
  }

  function Emotions(journal: seq<Entry>): (r: seq<Emotion>)
    ensures |r| == |journal|
  {
    seq(|journal|, i requires 0 <= i < |journal| => journal[i].emotion)
  }

  function Modes(journal: seq<Entry>): (r: seq<Mode>)
    ensures |r| == |journal|
  {
    seq(|journal|, i requires 0 <= i < |journal| => journal[i].mode)
  }

  /** Filtering out "Tidak yakin" keeps every other emotion's count. */
  lemma {:induction false} RatedEmotionsCount(journal: seq<Entry>)
    ensures forall e :: multiset(RatedEmotions(journal))[e]
                        == if e == TidakYakin then 0 else multiset(Emotions(journal))[e]
    decreases |journal|
  {
    if journal != [] {
      var init := journal[..|journal| - 1];
      RatedEmotionsCount(init);
      assert Emotions(journal) == Emotions(init) + [journal[|journal| - 1].emotion];
    }
  }

  /** A value of maximal count in `xs`, scanning the candidates `cands`. */
  function Heaviest<T(==)>(cands: seq<T>, xs: seq<T>): (c: T)
    requires cands != []
    ensures c in cands
    ensures forall y :: y in cands ==> multiset(xs)[y] <= multiset(xs)[c]
    decreases |cands|
  {
    if |cands| == 1 then cands[0]
    else
      var rest := Heaviest(cands[1..], xs);
      if multiset(xs)[cands[0]] >= multiset(xs)[rest] then cands[0] else rest
  }

  /** `max(set(xs), key=xs.count)`: some element of maximal count, or none
      for an empty list (where the page shows nothing). */
  function MostCommon<T(==)>(xs: seq<T>): (r: Option<T>)
    ensures r.None? <==> xs == []
    ensures r.Some? ==> r.value in xs && forall y :: y in xs ==> multiset(xs)[y] <= multiset(xs)[r.value]
  {
    if xs == [] then None else Some(Heaviest(xs, xs))
  }

  lemma {:induction false} NothingRatedIffAllUnsure(journal: seq<Entry>)
    ensures RatedEmotions(journal) == [] <==> forall i :: 0 <= i < |journal| ==> journal[i].emotion == TidakYakin
    decreases |journal|
  {
    if journal != [] {
      NothingRatedIffAllUnsure(journal[..|journal| - 1]);
    }
  }

  /** "Emosi Tersering": an emotion other than "Tidak yakin" that no other
      emotion outnumbers in the journal; absent when every entry is "Tidak yakin". */
  function MostCommonEmotion(journal: seq<Entry>): (r: Option<Emotion>)
    ensures r.None? <==> forall i :: 0 <= i < |journal| ==> journal[i].emotion == TidakYakin
    ensures r.Some? ==> r.value != TidakYakin && r.value in Emotions(journal)
    ensures r.Some? ==> forall e :: e != TidakYakin ==>
              multiset(Emotions(journal))[e] <= multiset(Emotions(journal))[r.value]
  {
    RatedEmotionsCount(journal);
    NothingRatedIffAllUnsure(journal);
    MostCommon(RatedEmotions(journal))
  }

  /** "Mode Tersering": a mode that no other mode outnumbers in the journal. */
  function MostCommonMode(journal: seq<Entry>): (r: Option<Mode>)
    ensures r.None? <==> journal == []
    ensures r.Some? ==> r.value in Modes(journal)
    ensures r.Some? ==> forall m :: multiset(Modes(journal))[m] <= multiset(Modes(journal))[r.value]
  {
    MostCommon(Modes(journal))
  }
}
