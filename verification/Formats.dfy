/** The kinds of reports that a streamer sends. */
module Formats {

  datatype Format = Individual | HashedList | SignedListUserKey | SignedListDeviceKey

  datatype ReportType = Broadcast | Telegram | Synchronous
}
