/** The status badge of a game card (src/components/game-card.tsx): the text and the colour
    classes shown for a game's status string. */
module GameCard {
  import opened Types
  import KboData

  /** `getStatusText`: the Korean label of the three known statuses; any other string is
      shown as it is. */
  function StatusText(status: string): (r: string)
    ensures status == "scheduled" ==> r == "예정"
    ensures status == "live" ==> r == "진행중"
    ensures status == "finished" ==> r == "종료"
    ensures status !in {"scheduled", "live", "finished"} ==> r == status
  {
    match status
    case "scheduled" => "예정"
    case "live" => "진행중"
    case "finished" => "종료"
    case _ => status
  }

  const BLUE: string := "text-blue-600 bg-blue-50"
  const RED: string := "text-red-600 bg-red-50"
  const GRAY: string := "text-gray-600 bg-gray-50"

  /** `getStatusColor`: blue for scheduled, red for live, gray for finished and for any
      other string. */
  function StatusColor(status: string): (r: string)
    ensures status == "scheduled" ==> r == BLUE
    ensures status == "live" ==> r == RED
    ensures status != "scheduled" && status != "live" ==> r == GRAY
  {
    match status
    case "scheduled" => BLUE
    case "live" => RED
    case "finished" => GRAY
    case _ => GRAY
  }

  /** The three statuses a game can have get three different labels and three different
      colours; reading a label back gives the status. */
  lemma StatusesDistinguished(s: GameStatus, t: GameStatus)
    ensures StatusText(s.Label()) != s.Label()
    ensures s != t ==> StatusText(s.Label()) != StatusText(t.Label())
    ensures s != t ==> StatusColor(s.Label()) != StatusColor(t.Label())
    ensures StatusText(s.Label()) == "종료" <==> s == Finished
  {
  }

  /** A string that is not a status is shown unchanged and in gray, like a finished game. */
  lemma UnknownStatus(status: string)
    requires forall s: GameStatus :: status != s.Label()
    ensures StatusText(status) == status
    ensures StatusColor(status) == StatusColor(Finished.Label())
  {
    assert status != Scheduled.Label() && status != Live.Label() && status != Finished.Label();
  }

  /** A scraped game reads "종료" on its card exactly when the league site reported it
      finished, and "진행중" exactly when the site reported it in progress. */
  lemma ScrapedStatusShown(gameStatus: string)
    ensures StatusText(KboData.StatusOf(gameStatus).Label()) == "종료" <==> gameStatus == "종료"
    ensures StatusText(KboData.StatusOf(gameStatus).Label()) == "진행중" <==> gameStatus == "경기중"
  {
    StatusesDistinguished(KboData.StatusOf(gameStatus), Finished);
    StatusesDistinguished(KboData.StatusOf(gameStatus), Live);
  }
}
