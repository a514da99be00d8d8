/** The "Import" button of the main window: it checks that the chosen package
    holds the files an exported instance carries and only then starts the
    import wizard. The dialog, the zip reader, the message box and the wizard
    are outside; the package's entry names are an input and what the click
    does is an outcome. */
module ImportInstanceButton {

  /** What one click does: nothing, show one message, or start one wizard. */
  datatype ClickOutcome =
    | NoAction
    | ShowMessage(text: string)
    | StartWizard(pipelineName: string, parameter: string)

  const AppPoolFileName := "AppPoolSettings.xml"
  const WebsiteSettingsFileName := "WebsiteSettings.xml"
  const WebConfigFileName := "Website/Web.config"

  /** The entries an importable package must contain, in the order checked. */
  const RequiredEntries := [AppPoolFileName, WebsiteSettingsFileName, WebConfigFileName]

  const ImportPipelineName := "import"

  const MessagePrefix := "Wrong package for import. The package does not contain the "
  const MessageSuffix := " file."

  /** The message for a missing entry; the entry's name stands between a
      fixed prefix and suffix, so it can be read back from the message. */
  function MissingEntryMessage(entry: string): (r: string)
    ensures |r| == |MessagePrefix| + |entry| + |MessageSuffix|
    ensures r[|MessagePrefix|..|r| - |MessageSuffix|] == entry
  {
    MessagePrefix + entry + MessageSuffix
  }

  /** Different missing entries give different messages. */
  lemma MissingEntryMessageInjective(a: string, b: string)
    requires a != b
    ensures MissingEntryMessage(a) != MissingEntryMessage(b)
  {
  }

  /** The button is available whatever the window and the selected instance. */
  function IsEnabled<W, I>(mainWindow: W, instance: I): (r: bool)
    ensures r
  {
    true
  }

  /** The decision taken after the file dialog closes with `filePath` chosen
      ("" when cancelled) and the package lists `entries`. */
  function OnClick(filePath: string, entries: set<string>): (r: ClickOutcome)
    ensures filePath == "" ==> r == NoAction
    ensures r.NoAction? ==> filePath == ""
    ensures r.StartWizard? <==> filePath != "" && forall e :: e in RequiredEntries ==> e in entries
    ensures r.StartWizard? ==> r == StartWizard(ImportPipelineName, filePath)
    ensures r.ShowMessage? ==>
              exists k :: 0 <= k < |RequiredEntries| && RequiredEntries[k] !in entries
                          && (forall j :: 0 <= j < k ==> RequiredEntries[j] in entries)
                          && r.text == MissingEntryMessage(RequiredEntries[k])
  {
    assert RequiredEntries[0] == AppPoolFileName && RequiredEntries[1] == WebsiteSettingsFileName
           && RequiredEntries[2] == WebConfigFileName;
    if filePath == "" then NoAction
    else if AppPoolFileName !in entries then ShowMessage(MissingEntryMessage(AppPoolFileName))
    else if WebsiteSettingsFileName !in entries then ShowMessage(MissingEntryMessage(WebsiteSettingsFileName))
    else if WebConfigFileName !in entries then ShowMessage(MissingEntryMessage(WebConfigFileName))
    else StartWizard(ImportPipelineName, filePath)
  }

  /** The message names only the first missing entry, in the fixed order. */
  lemma OnClickReportsFirstMissing(filePath: string, entries: set<string>, k: nat)
    requires filePath != ""
    requires k < |RequiredEntries| && RequiredEntries[k] !in entries
    requires forall j :: 0 <= j < k ==> RequiredEntries[j] in entries
    ensures OnClick(filePath, entries) == ShowMessage(MissingEntryMessage(RequiredEntries[k]))
  {
    assert RequiredEntries[0] == AppPoolFileName;
    assert RequiredEntries[1] == WebsiteSettingsFileName;
    assert RequiredEntries[2] == WebConfigFileName;
  }
}
