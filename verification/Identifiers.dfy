/** The identifiers of models and provider endpoints, character by character. */
module Identifiers {
  import opened Text

  predicate Lower(c: char) {
    'a' <= c <= 'z' || '0' <= c <= '9'
  }

  predicate Alphanumeric(c: char) {
    Lower(c) || 'A' <= c <= 'Z'
  }

  predicate Separator(c: char) {
    c == '.' || c == '_' || c == '-' || c == ':'
  }

  /** One character of the first kind, then at most `max` of the second. */
  predicate Shaped(s: string, first: char -> bool, rest: char -> bool, max: nat) {
    1 <= |s| <= max + 1 && first(s[0]) && forall i :: 1 <= i < |s| ==> rest(s[i])
  }

  /** Words that mark a routed or changing variant. */
  function Routed(): set<string> {
    {"auto", "free", "latest", "online", "random", "router"}
  }

  /** Splitting at runs of separators gives `s[i..j]` as a part. */
  predicate IsPart(s: string, i: nat, j: nat) {
    && i < j <= |s|
    && (i == 0 || Separator(s[i - 1])) && (j == |s| || Separator(s[j]))
    && forall k :: i <= k < j ==> !Separator(s[k])
  }

  /** No part of the variant is a routed word. */
  predicate Unrouted(s: string) {
    forall i, j | 0 <= i < j <= |s| :: IsPart(s, i, j) ==> s[i..j] !in Routed()
  }

  /** `is_exact_openrouter_model_id`: an author, a slash, and an unrouted model. */
  predicate ExactModel(s: string) {
    '/' in s
    && var i := IndexOf(s, '/');
       && Shaped(s[..i], Lower, c => Lower(c) || (Separator(c) && c != ':'), 127)
       && Shaped(s[i + 1..], Lower, c => Lower(c) || Separator(c), 255)
       && Unrouted(s[i + 1..])
  }

  /** The provider endpoint pattern. */
  predicate SafeProvider(s: string) {
    Shaped(s, Alphanumeric, c => Alphanumeric(c) || Separator(c) || c == '/', 199)
  }

  lemma RoutedIsOther(s: string, i: nat, j: nat)
    requires i < j <= |s| && forall k :: 0 <= k < |s| ==> s[k] == 'a'
    ensures s[i..j] !in Routed()
  {
    var w := s[i..j];
    assert forall k :: 0 <= k < |w| ==> w[k] == 'a';
    assert "auto"[1] == 'u' && "free"[0] == 'f' && "latest"[0] == 'l' && "online"[0] == 'o';
    assert "random"[0] == 'r' && "router"[0] == 'r';
  }

  lemma LettersUnrouted(n: nat)
    ensures Unrouted(Letters(n))
  {
    hide Routed;
    var m := Letters(n);
    forall i, j | 0 <= i < j <= n && IsPart(m, i, j) ensures m[i..j] !in Routed() { RoutedIsOther(m, i, j); }
  }

  lemma LettersModel(n: nat)
    ensures ExactModel("a/" + Letters(n)) <==> 1 <= n <= 256
  {
    hide Unrouted;
    var m := Letters(n);
    IndexOfSplit("a", '/', m);
    var s := "a" + ['/'] + m;
    assert "a/" + m == s && s[..1] == "a" && s[2..] == m;
    LettersUnrouted(n);
  }

  lemma LettersAuthor(n: nat)
    ensures ExactModel(Letters(n) + "/a") <==> 1 <= n <= 128
  {
    hide Unrouted;
    var m := Letters(n);
    IndexOfSplit(m, '/', "a");
    var s := m + ['/'] + "a";
    assert m + "/a" == s && s[..n] == m && s[n + 1..] == "a";
    LettersUnrouted(1);
    assert Letters(1) == "a";
  }

  lemma LettersProvider(n: nat)
    ensures SafeProvider(Letters(n)) <==> 1 <= n <= 200
  {
  }

  /** How long names may be: an author of 1 to 128 characters, a model of 1 to 256, a provider of 1 to 200. */
  lemma LettersAccepted(n: nat)
    ensures ExactModel("a/" + Letters(n)) <==> 1 <= n <= 256
    ensures ExactModel(Letters(n) + "/a") <==> 1 <= n <= 128
    ensures SafeProvider(Letters(n)) <==> 1 <= n <= 200
  {
    hide ExactModel, SafeProvider;
    LettersModel(n);
    LettersAuthor(n);
    LettersProvider(n);
  }

  /** A model with a routed word between separators is refused. */
  lemma RoutedRefused(author: string, head: string, word: string, tail: string)
    requires '/' !in author && '/' !in head + word + tail
    requires word in {"auto", "free", "latest", "online", "random", "router"}
    requires (head == "" || Separator(head[|head| - 1])) && (tail == "" || Separator(tail[0]))
    ensures !ExactModel(author + "/" + (head + word + tail))
  {
    var model := head + word + tail;
    IndexOfSplit(author, '/', model);
    var s := author + ['/'] + model;
    assert author + "/" + model == s && s[|author| + 1..] == model;
    var i, j := |head|, |head| + |word|;
    assert model[i..j] == word;
    NoSeparatorIn(word);
    forall k | i <= k < j ensures !Separator(model[k]) { assert model[k] == word[k - i]; }
    assert IsPart(model, i, j);
  }

  lemma RoutedWords()
    ensures Routed() == {"auto", "free", "latest", "online", "random", "router"}
  {
  }

  /** Without separators the whole is the only part. */
  lemma WholePart(model: string)
    requires model != "" && forall k :: 0 <= k < |model| ==> !Separator(model[k])
    ensures Unrouted(model) <==> model !in Routed()
  {
    hide Routed;
    assert IsPart(model, 0, |model|) && model[0..|model|] == model;
    forall i, j | 0 <= i < j <= |model| && IsPart(model, i, j) ensures model[i..j] == model {
      assert i == 0 && j == |model|;
    }
  }

  /** A model without separators is refused only if it is a routed word as a whole. */
  lemma PlainModel(model: string)
    requires 1 <= |model| <= 256 && forall k :: 0 <= k < |model| ==> Lower(model[k])
    ensures ExactModel("a/" + model) <==> model !in {"auto", "free", "latest", "online", "random", "router"}
  {
    hide Routed, Unrouted;
    IndexOfSplit("a", '/', model);
    var s := "a" + ['/'] + model;
    assert "a/" + model == s && s[..1] == "a" && s[2..] == model;
    WholePart(model);
    RoutedWords();
  }

  lemma NoSeparatorIn(word: string)
    requires word in Routed()
    ensures word != "" && forall k :: 0 <= k < |word| ==> !Separator(word[k])
  {
  }

  /** Accepted models have exactly one slash, and start their two halves with a lower-case letter or a digit. */
  lemma ExactModelShape(s: string)
    requires ExactModel(s)
    ensures exists author, model ::
              && s == author + "/" + model && '/' !in author && '/' !in model && author != "" && model != ""
              && author[0] !in "._-:" && model[0] !in "._-:" && ':' !in author
    ensures forall c :: c in s ==> 'a' <= c <= 'z' || '0' <= c <= '9' || c in "._-:/"
  {
    hide Unrouted;
    var i := IndexOf(s, '/');
    var author, model := s[..i], s[i + 1..];
    assert s == author + "/" + model;
    ShapedCharacters(author, 127);
    ShapedCharacters(model, 255);
  }

  lemma ShapedCharacters(s: string, max: nat)
    requires Shaped(s, Lower, c => Lower(c) || (Separator(c) && c != ':'), max) || Shaped(s, Lower, c => Lower(c) || Separator(c), max)
    ensures s != "" && s[0] !in "._-:" && '/' !in s
    ensures forall c :: c in s ==> 'a' <= c <= 'z' || '0' <= c <= '9' || c in "._-:"
    ensures Shaped(s, Lower, c => Lower(c) || (Separator(c) && c != ':'), max) ==> ':' !in s
  {
    forall c | c in s
      ensures (Lower(c) || Separator(c)) && c != '/'
      ensures Shaped(s, Lower, c => Lower(c) || (Separator(c) && c != ':'), max) ==> c != ':'
    {
      var k :| 0 <= k < |s| && s[k] == c;
    }
  }
}
