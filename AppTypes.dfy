/** The shared unions of the application: its phases, languages and the confirm choice. */
module AppTypes {
  datatype Phase = Boot | Loading | Pause | Confirm | Shutdown | Off | Error | Main

  datatype Language = ES | EN | JP

  datatype ConfirmOption = Yes | No
}
