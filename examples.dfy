/** Concrete instances of the help-text computations. */
module Examples {
  import opened Text
  import opened Order
  import opened LockfileModel
  import opened Writer

  /** `main` is not an extra; the others come out sorted. */
  lemma ExtrasSorted()
    ensures Extras({"main", "b", "a"}) == ["a", "b"]
  {
    assert Less("a", "b");
    AscendingUnique(Extras({"main", "b", "a"}), ["a", "b"]);
  }

  /** `dev` is not an extra either. */
  lemma ExtrasSkipDev()
    ensures Extras({"main", "dev", "test"}) == ["test"]
  {
    AscendingUnique(Extras({"main", "dev", "test"}), ["test"]);
  }

  /** Packages only in `main` give no extras. */
  lemma MainOnlyNoExtras(packages: seq<Package>)
    requires forall i :: 0 <= i < |packages| ==> packages[i].category == "main"
    ensures "dev" !in Categories(packages) && Extras(Categories(packages)) == []
  {
    forall c | c in Categories(packages) ensures c == "main" {
    }
  }

  /** One `-f` flag per source, in the stored order. */
  lemma SourceFlags()
    ensures Flags("-f", ["env.yml", "extra.yml"]) == "-f env.yml -f extra.yml"
  {
    var xs := ["env.yml", "extra.yml"];
    assert "-f" + " " == "-f ";
    var ps := Prefixed("-f" + " ", xs);
    assert ps[0] == "-f " + xs[0] == "-f env.yml";
    assert ps[1] == "-f " + xs[1] == "-f extra.yml";
    assert ps[1..] == ["-f extra.yml"];
    assert Join(" ", ps) == "-f env.yml" + " " + "-f extra.yml";
  }

  /** No sources give an empty flag list. */
  lemma NoSourceFlags()
    ensures Flags("-f", []) == ""
  {
  }
}
