/** The sizes from which message_service_util.go treats a folder as large, and as huge. */
module MailboxLimits {
  const SORT_THRESHOLD := 10000
  const MAX_SORT_UIDS := 50000
}
