/** The one-off notices a view queues for the next page (Django's messages framework). */
module Messages {
  datatype Level = Info | Success | Warning

  datatype Message = Message(level: Level, text: string)
}
