/** Which glossary definitions a set of texts pulls in, following definitions of definitions. */
module Definitions {

  type Occurs = (string, string) -> bool

  /** `text` is one the selection has to look at: a given one, or a selected definition. */
  predicate IsSource(texts: seq<string>, available: map<string, string>, selected: set<string>, text: string) {
    text != "" && (text in texts || exists u :: u in selected && u in available && available[u] == text)
  }

  /** `s` contains every available term that occurs in one of its sources. */
  ghost predicate Closed(occurs: Occurs, texts: seq<string>, available: map<string, string>, s: set<string>) {
    forall t, text :: t in available && t != "" && IsSource(texts, available, s, text) && occurs(t, text) ==> t in s
  }

  /** `pending` still holds every source in which an unselected term occurs, and only sources. */
  ghost predicate Scanning(occurs: Occurs, texts: seq<string>, available: map<string, string>,
                           remaining: map<string, string>, selected: map<string, string>, pending: seq<string>) {
    && remaining.Keys !! selected.Keys && "" !in remaining && "" !in selected
    && (forall t :: t in available && t != "" <==> t in remaining || t in selected)
    && (forall t :: t in remaining ==> remaining[t] == available[t])
    && (forall t :: t in selected ==> selected[t] == available[t])
    && (forall text :: text in pending ==> IsSource(texts, available, selected.Keys, text))
    && (forall t, text :: t in remaining && IsSource(texts, available, selected.Keys, text) && occurs(t, text) ==>
         text in pending)
  }

  /** Every closed set contains what has been selected so far. */
  ghost predicate Needed(occurs: Occurs, texts: seq<string>, available: map<string, string>, selected: set<string>) {
    forall s :: Closed(occurs, texts, available, s) ==> selected <= s
  }

  lemma SourceGrows(texts: seq<string>, available: map<string, string>, a: set<string>, b: set<string>, text: string)
    requires IsSource(texts, available, a, text) && a <= b
    ensures IsSource(texts, available, b, text)
  {}

  lemma MatchIsNeeded(occurs: Occurs, texts: seq<string>, available: map<string, string>, selected: set<string>,
                      t: string, text: string)
    requires Needed(occurs, texts, available, selected)
    requires t in available && t != "" && IsSource(texts, available, selected, text) && occurs(t, text)
    ensures Needed(occurs, texts, available, selected + {t})
  {
    forall s | Closed(occurs, texts, available, s) ensures selected + {t} <= s {
      SourceGrows(texts, available, selected, s, text);
    }
  }

  /** Move the terms that occur in one text from `remaining` to `selected`, queueing their definitions. */
  method TakeMatches(occurs: Occurs, ghost texts: seq<string>, ghost available: map<string, string>, text: string,
                     remaining0: map<string, string>, selected0: map<string, string>, rest: seq<string>)
      returns (remaining: map<string, string>, selected: map<string, string>, pending: seq<string>)
    requires Scanning(occurs, texts, available, remaining0, selected0, [text] + rest)
    requires Needed(occurs, texts, available, selected0.Keys)
    ensures Scanning(occurs, texts, available, remaining, selected, pending)
    ensures Needed(occurs, texts, available, selected.Keys)
    ensures remaining.Keys < remaining0.Keys || (remaining == remaining0 && pending == rest)
  {
    remaining, selected, pending := remaining0, selected0, rest;
    assert text in [text] + rest;
    var matched := set t | t in remaining && occurs(t, text);
    while matched != {}
      invariant matched == set t | t in remaining && occurs(t, text)
      invariant IsSource(texts, available, selected.Keys, text)
      invariant Scanning(occurs, texts, available, remaining, selected, [text] + pending)
      invariant Needed(occurs, texts, available, selected.Keys)
      invariant remaining.Keys < remaining0.Keys || (remaining == remaining0 && pending == rest)
      decreases matched
    {
      var t :| t in matched;
      var definition := remaining[t];
      ghost var before := selected.Keys;
      MatchIsNeeded(occurs, texts, available, selected.Keys, t, text);
      ScanningTakes(occurs, texts, available, remaining, selected, [text] + pending, t);
      remaining := remaining - {t};
      selected := selected[t := definition];
      assert selected.Keys == before + {t};
      if definition != "" {
        assert ([text] + pending) + [definition] == [text] + (pending + [definition]);
        pending := pending + [definition];
      }
      matched := matched - {t};
    }
    forall u, x | u in remaining && IsSource(texts, available, selected.Keys, x) && occurs(u, x) ensures x in pending {
      assert u !in matched && !occurs(u, text);
      assert x in [text] + pending;
    }
  }

  lemma ScanningTakes(occurs: Occurs, texts: seq<string>, available: map<string, string>,
                      remaining: map<string, string>, selected: map<string, string>, pending: seq<string>, t: string)
    requires Scanning(occurs, texts, available, remaining, selected, pending) && t in remaining
    ensures var d := remaining[t];
      Scanning(occurs, texts, available, remaining - {t}, selected[t := d], if d == "" then pending else pending + [d])
  {
    var d := remaining[t];
    var more := selected[t := d];
    var queue := if d == "" then pending else pending + [d];
    forall text | text in queue ensures IsSource(texts, available, more.Keys, text) {
      if text in pending { SourceGrows(texts, available, selected.Keys, more.Keys, text); }
      else { assert t in more.Keys && available[t] == text; }
    }
    forall u, text | u in remaining - {t} && IsSource(texts, available, more.Keys, text) && occurs(u, text)
      ensures text in queue
    {
      if text != d { assert IsSource(texts, available, selected.Keys, text); }
    }
  }

  /** The selected terms are the least set closed under occurrence, whatever the queue order. */
  method SelectReferenced(occurs: Occurs, texts: seq<string>, available: map<string, string>)
      returns (selected: map<string, string>)
    ensures forall t :: t in selected ==> t in available && t != "" && selected[t] == available[t]
    ensures Closed(occurs, texts, available, selected.Keys)
    ensures forall s :: Closed(occurs, texts, available, s) ==> selected.Keys <= s
  {
    var remaining := map t | t in available && t != "" :: available[t];
    selected := map[];
    var pending := NonEmpty(texts);
    assert Needed(occurs, texts, available, {});
    while pending != [] && remaining.Keys != {}
      invariant Scanning(occurs, texts, available, remaining, selected, pending)
      invariant Needed(occurs, texts, available, selected.Keys)
      decreases remaining.Keys, |pending|
    {
      var text, rest := pending[0], pending[1..];
      assert pending == [text] + rest;
      remaining, selected, pending := TakeMatches(occurs, texts, available, text, remaining, selected, rest);
    }
  }

  function NonEmpty(texts: seq<string>): (r: seq<string>)
    ensures forall x :: x in r <==> x in texts && x != ""
  {
    if texts == [] then [] else (if texts[0] == "" then [] else [texts[0]]) + NonEmpty(texts[1..])
  }
}
