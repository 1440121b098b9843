/** Role classification of a staff account by its free-text role label. */
module RoleHelper {
  import opened JsText

  /** The Turkish label of the manager role, `Yönetici`. */
  const ManagerLabel: string := "Y\U{F6}netici"
  /** The label `Y??netici` a wrong character set makes of it. */
  const CorruptedManagerLabel: string := "Y??netici"
  const EnglishManagerLabel: string := "Manager"
  /** The role an account receives when none is given. */
  const DefaultStaffLabel: string := "Personel"

  /** `isManagerRole`: an empty label is never a manager; otherwise one of five tests,
      the third accepting any label whose upper case contains both `Y` and `NETICI`. */
  predicate IsManagerRole(role: string) {
    var upper := ToUpper(role);
    role != "" &&
    (|| role == ManagerLabel
     || role == EnglishManagerLabel
     || (Includes(upper, "Y") && Includes(upper, "NETICI"))
     || upper == "Y\U{D6}NETICI"
     || upper == "MANAGER")
  }

  /** `isStaffRole`: every label that is not a manager's. */
  predicate IsStaffRole(role: string) {
    !IsManagerRole(role)
  }

  /** Reference definition: only two of the five tests matter, because the exact labels and
      the upper-case Turkish label all contain `Y` and `NETICI` once upper-cased, and
      `Manager` upper-cases to `MANAGER`. */
  predicate IsManagerRoleReference(role: string) {
    var upper := ToUpper(role);
    role != "" && (upper == "MANAGER" || (Includes(upper, "Y") && Includes(upper, "NETICI")))
  }

  lemma UpperOfLabels()
    ensures ToUpper(ManagerLabel) == "Y\U{D6}NETICI"
    ensures ToUpper(EnglishManagerLabel) == "MANAGER"
    ensures ToUpper(CorruptedManagerLabel) == "Y??NETICI"
  {
  }

  /** The upper-case Turkish label passes the substring test. */
  lemma {:induction false} UpperTurkishLabelHasMarkers()
    ensures Includes("Y\U{D6}NETICI", "Y") && Includes("Y\U{D6}NETICI", "NETICI")
  {
    assert OccursAt("Y\U{D6}NETICI", "Y", 0);
    assert OccursAt("Y\U{D6}NETICI", "NETICI", 2);
  }

  lemma {:induction false} IsManagerRoleMatchesReference(role: string)
    ensures IsManagerRole(role) <==> IsManagerRoleReference(role)
  {
    UpperOfLabels();
    UpperTurkishLabelHasMarkers();
  }

  /** The Turkish and English labels and their upper-case forms are manager roles, and so is
      the corrupted label. */
  lemma {:induction false} KnownManagerLabels()
    ensures IsManagerRole(ManagerLabel) && IsManagerRole(EnglishManagerLabel)
    ensures IsManagerRole("Y\U{D6}NETICI") && IsManagerRole("MANAGER")
    ensures IsManagerRole(CorruptedManagerLabel)
  {
    UpperOfLabels();
    assert OccursAt("Y??NETICI", "Y", 0);
    assert OccursAt("Y??NETICI", "NETICI", 3);
  }

  /** The empty label and the default label are staff roles. */
  lemma {:induction false} StaffLabels()
    ensures IsStaffRole("")
    ensures IsStaffRole(DefaultStaffLabel)
  {
    var upper := ToUpper(DefaultStaffLabel);
    assert upper == "PERSONEL";
    forall i | 0 <= i <= |upper| - 6 ensures !OccursAt(upper, "NETICI", i) {
      assert upper[i] != 'N';
    }
  }

  /** Staff and manager partition the labels. */
  lemma StaffIsComplement(role: string)
    ensures IsStaffRole(role) != IsManagerRole(role)
  {
  }
}
