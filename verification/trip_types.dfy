/** The trip types offered by the new-trip wizard, and the settings filter
    list derived from them with an "all" entry in front. */
module TripTypes {
  import PackingList

  datatype TripTypeOption = TripTypeOption(value: string, labelText: string, description: string)

  datatype SettingsOption = SettingsOption(value: string, labelText: string)

  const WizardTripTypes: seq<TripTypeOption> := [
    TripTypeOption("business", "Business", "Work meetings, conferences"),
    TripTypeOption("vacation", "Vacation / Beach", "Relaxation, sun, swimming"),
    TripTypeOption("camping", "Camping / Outdoors", "Hiking, nature, adventure"),
    TripTypeOption("cityBreak", "City Break", "Sightseeing, culture, food")
  ]

  /** Each option reduced to its value and label, in order. */
  function ValuesAndLabels(options: seq<TripTypeOption>): seq<SettingsOption> {
    seq(|options|, i requires 0 <= i < |options| => SettingsOption(options[i].value, options[i].labelText))
  }

  function SettingsTripTypes(): seq<SettingsOption> {
    [SettingsOption(PackingList.AllTripTypes, "All Trip Types")] + ValuesAndLabels(WizardTripTypes)
  }

  /** The wizard offers these four values, in this order, each once. */
  lemma WizardValues()
    ensures |WizardTripTypes| == 4
    ensures WizardTripTypes[0].value == "business" && WizardTripTypes[1].value == "vacation"
      && WizardTripTypes[2].value == "camping" && WizardTripTypes[3].value == "cityBreak"
    ensures forall i, j :: 0 <= i < j < |WizardTripTypes| ==> WizardTripTypes[i].value != WizardTripTypes[j].value
  {
    assert "business"[0] == 'b' && "vacation"[0] == 'v' && "camping"[0] == 'c' && "cityBreak"[0] == 'c';
    assert "camping"[1] == 'a' && "cityBreak"[1] == 'i';
  }

  /** The settings list is the "all" entry followed by every wizard entry's
      value and label, in order; "all" is the generator's match-every-trip
      sentinel and occurs only in front, and no value occurs twice. */
  lemma SettingsShape()
    ensures var s := SettingsTripTypes();
      |s| == |WizardTripTypes| + 1
      && s[0] == SettingsOption("all", "All Trip Types") && s[0].value == PackingList.AllTripTypes
      && (forall i :: 0 <= i < |WizardTripTypes| ==>
            s[i + 1].value == WizardTripTypes[i].value && s[i + 1].labelText == WizardTripTypes[i].labelText)
      && (forall i :: 0 < i < |s| ==> s[i].value != "all")
      && (forall i, j :: 0 <= i < j < |s| ==> s[i].value != s[j].value)
  {
    var s := SettingsTripTypes();
    WizardValues();
    assert "all"[0] == 'a';
    forall i | 0 < i < |s| ensures s[i].value != "all" {
      assert s[i].value == WizardTripTypes[i - 1].value;
    }
    forall i, j | 0 <= i < j < |s| ensures s[i].value != s[j].value {
      assert s[j].value == WizardTripTypes[j - 1].value;
      if i > 0 {
        assert s[i].value == WizardTripTypes[i - 1].value;
      }
    }
  }
}
