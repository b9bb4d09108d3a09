/** `load_vehicle_parts`: the vocabulary of vehicle-part terms.

    Reading the file and `json.load` are not modelled. What they hand on is
    `doc`: `Some(categories)` when the file parsed as an object whose values
    are lists of strings (one inner sequence per category, in the order
    `data.values()` yields them), `None` for every failure (a missing or
    unreadable file, malformed JSON, a document of another shape). */
module Utils {
  import opened Wrappers
  import opened Text

  /** The lower-cased terms of one category. */
  function CategoryParts(category: seq<string>): set<string> {
    set part | part in category :: Lower(part)
  }

  /** The lower-cased terms of all categories, as one set. */
  function AllParts(categories: seq<seq<string>>): set<string> {
    if categories == [] then {}
    else AllParts(categories[..|categories| - 1]) + CategoryParts(categories[|categories| - 1])
  }

  /** The vocabulary a document yields: every failure gives the empty set. */
  function Vocabulary(doc: Option<seq<seq<string>>>): set<string> {
    match doc
    case None => {}
    case Some(categories) => AllParts(categories)
  }

  /** The nested loop of `load_vehicle_parts`, adding each lower-cased part
      to a set that starts empty; the `except` branch returns `set()`. */
  method LoadVehicleParts(doc: Option<seq<seq<string>>>) returns (parts: set<string>)
    ensures doc.None? ==> parts == {}
    ensures parts == Vocabulary(doc)
  {
    if doc.None? {
      return {};
    }
    var categories := doc.value;
    parts := {};
    var i := 0;
    while i < |categories|
      invariant 0 <= i <= |categories|
      invariant parts == AllParts(categories[..i])
    {
      var category := categories[i];
      var j := 0;
      while j < |category|
        invariant 0 <= j <= |category|
        invariant parts == AllParts(categories[..i]) + CategoryParts(category[..j])
      {
        assert category[..j + 1] == category[..j] + [category[j]];
        parts := parts + {Lower(category[j])};
        j := j + 1;
      }
      assert category[..j] == category;
      assert categories[..i + 1][..i] == categories[..i];
      i := i + 1;
    }
    assert categories[..i] == categories;
  }

  /** Membership: a term is in the vocabulary exactly when it is the
      lower-cased form of some part of some category. */
  lemma {:induction false} AllPartsMembers(categories: seq<seq<string>>, p: string)
    ensures p in AllParts(categories) <==>
      exists i, j :: 0 <= i < |categories| && 0 <= j < |categories[i]| && p == Lower(categories[i][j])
  {
    if categories != [] {
      var n := |categories| - 1;
      var init := categories[..n];
      AllPartsMembers(init, p);
      if p in AllParts(categories) {
        if p in AllParts(init) {
          var i, j :| 0 <= i < |init| && 0 <= j < |init[i]| && p == Lower(init[i][j]);
          assert categories[i] == init[i];
        } else {
          var part :| part in categories[n] && p == Lower(part);
          var j :| 0 <= j < |categories[n]| && categories[n][j] == part;
        }
      }
      if exists i, j :: 0 <= i < |categories| && 0 <= j < |categories[i]| && p == Lower(categories[i][j]) {
        var i, j :| 0 <= i < |categories| && 0 <= j < |categories[i]| && p == Lower(categories[i][j]);
        if i < n {
          assert init[i] == categories[i];
        } else {
          assert categories[n][j] in categories[n];
        }
      }
    }
  }

  /** Every member of the vocabulary is lower case. */
  lemma VocabularyLowerCase(doc: Option<seq<seq<string>>>)
    ensures forall p :: p in Vocabulary(doc) ==> IsLowerCase(p)
  {
    if doc.Some? {
      forall p | p in Vocabulary(doc) ensures IsLowerCase(p) {
        AllPartsMembers(doc.value, p);
      }
    }
  }

  /** The order of the categories does not matter: any permutation of them
      gives the same vocabulary. */
  lemma CategoryOrderFree(a: seq<seq<string>>, b: seq<seq<string>>)
    requires multiset(a) == multiset(b)
    ensures AllParts(a) == AllParts(b)
  {
    forall p | p in AllParts(a) ensures p in AllParts(b) {
      AllPartsMembers(a, p);
      AllPartsMembers(b, p);
      var i, j :| 0 <= i < |a| && 0 <= j < |a[i]| && p == Lower(a[i][j]);
      assert a[i] in multiset(b);
      var i' :| 0 <= i' < |b| && b[i'] == a[i];
    }
    forall p | p in AllParts(b) ensures p in AllParts(a) {
      AllPartsMembers(a, p);
      AllPartsMembers(b, p);
      var i, j :| 0 <= i < |b| && 0 <= j < |b[i]| && p == Lower(b[i][j]);
      assert b[i] in multiset(a);
      var i' :| 0 <= i' < |a| && a[i'] == b[i];
    }
  }

  /** The order of the parts within a category does not matter. */
  lemma PartOrderFree(c1: seq<string>, c2: seq<string>)
    requires multiset(c1) == multiset(c2)
    ensures CategoryParts(c1) == CategoryParts(c2)
  {
    assert forall part :: part in c1 <==> part in multiset(c1);
    assert forall part :: part in c2 <==> part in multiset(c2);
  }

  /** A term repeated in one category, or in another, or in another letter
      case, is one member. */
  lemma DuplicatesCollapse()
    ensures Vocabulary(Some([["Door", "door"], ["DOOR", "Mirror"]])) == {"door", "mirror"}
  {
    var cats := [["Door", "door"], ["DOOR", "Mirror"]];
    assert Lower("Door") == "door" && Lower("door") == "door";
    assert Lower("DOOR") == "door" && Lower("Mirror") == "mirror";
    assert CategoryParts(cats[0]) == {"door"};
    assert CategoryParts(cats[1]) == {"door", "mirror"};
    assert cats[..1] == [cats[0]];
    assert AllParts(cats[..1]) == {"door"};
  }
}
