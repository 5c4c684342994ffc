/** InboxName (misc.go): the name of the inbox folder for a discovery type. */
module Misc {
  import opened Base

  /** Go panics with this message for an unknown discovery type. */
  datatype Panic = Panic(message: string)

  const GmailInbox := "INBOX"
  const OutlookInbox := "Inbox"

  /** The discovery types whose inbox name is known, compared exactly. */
  predicate Known(discoveryType: string)
  {
    discoveryType == "gmail" || discoveryType == "googleapps" || discoveryType == "msliveconnect"
  }

  function InboxName(discoveryType: string): (r: Result<string, Panic>)
    ensures r.Ok? <==> Known(discoveryType)
    ensures r.Ok? ==> r.value == GmailInbox || r.value == OutlookInbox
    ensures r.Ok? && r.value == OutlookInbox <==> discoveryType == "msliveconnect"
    ensures r.Err? ==> r.error == Panic("Unknown discovery type: " + discoveryType)
  {
    match discoveryType
    case "gmail" => Ok(GmailInbox)
    case "googleapps" => Ok(GmailInbox)
    case "msliveconnect" => Ok(OutlookInbox)
    case _ => Err(Panic("Unknown discovery type: " + discoveryType))
  }

  /** The type discovery reports for yahoo and aol accounts has no inbox
      name, and neither does a differently capitalised known type. */
  lemma UnknownTypes()
    ensures InboxName("generic").Err?
    ensures InboxName("Gmail").Err?
    ensures InboxName("gmail") == InboxName("googleapps") == Ok("INBOX")
  {
  }
}
