/** The lookup that repairs role labels damaged by a wrong character set. */
module TextHelper {
  import opened JsText
  import opened RoleHelper

  /** The repair table: the corrupted label and the former English name map to `Yönetici`. */
  const EncodingFixes: map<string, string> := map[CorruptedManagerLabel := ManagerLabel, "Administrator" := ManagerLabel]

  /** `fixTurkishEncoding`: the table entry for a key of the table, the text itself otherwise. */
  function FixTurkishEncoding(text: string): (r: string)
    ensures text in EncodingFixes ==> r == ManagerLabel
    ensures text !in EncodingFixes ==> r == text
  {
    if text == "" then text
    else if text in EncodingFixes && EncodingFixes[text] != "" then EncodingFixes[text]
    else text
  }

  /** Repairing twice is repairing once: `Yönetici` is not itself a key. */
  lemma {:induction false} FixTurkishEncodingIdempotent(text: string)
    ensures FixTurkishEncoding(FixTurkishEncoding(text)) == FixTurkishEncoding(text)
  {
    if text in EncodingFixes {
      assert ManagerLabel != CorruptedManagerLabel && ManagerLabel != "Administrator";
    }
  }

  /** A repaired label is classified like `Yönetici`: both table keys become manager roles,
      although `Administrator` alone is not one. */
  lemma {:induction false} RepairedLabelsAreManagerRoles()
    ensures IsManagerRole(FixTurkishEncoding(CorruptedManagerLabel))
    ensures IsManagerRole(FixTurkishEncoding("Administrator"))
    ensures !IsManagerRole("Administrator")
  {
    KnownManagerLabels();
    var upper := ToUpper("Administrator");
    assert upper == "ADMINISTRATOR";
    forall i | 0 <= i <= |upper| - 1 ensures !OccursAt(upper, "Y", i) {
      assert upper[i] != 'Y';
    }
  }
}
