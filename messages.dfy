module Wrappers {
  datatype Option<+T> = None | Some(value: T)
}

/** The runtime messages that content.js and background.js exchange. */
module Messages {
  import opened Wrappers

  /** What `collectLinks` and `downloadCitation` resolve to:
      `{ success: true }` or `{ success: false, error }`. */
  datatype ScriptResult = Succeeded | Failed(error: string)

  /** What the awaited `chrome.tabs.sendMessage(tab, { action: 'downloadCitation' })`
      of background.js yields. The content script replies `{ success }` where
      `success` is the whole ScriptResult object (content.js:4), so a reply
      always carries a truthy `success` field, whatever the download did.
      EmptyReply is a reply that resolves to `undefined`; SendFailed is a
      rejected promise (no receiver, or the channel closed). */
  datatype CitationReply = Replied(success: ScriptResult) | EmptyReply | SendFailed

  /** Messages delivered to the background listener. `urls` is None when the
      field is missing or is not an array. */
  datatype Message =
    | NextPageFound(url: string)
    | StartDownload(tabId: nat)
    | LinksCollected(urls: Option<seq<string>>, titles: seq<string>, totalResults: int)
    | StopDownload
    | OtherAction
}
