/** The price category `tarifentree` of a record decides two things: which
    marker group the record's marker joins (the dispatch at the end of the
    loop in `display_map`) and the colour of its icon (`get_icon`). Both are
    exact string comparisons against three literals, with a default for
    every other value. */
module Tariff {

  const Gratuit: string := "Gratuit"
  const Payant: string := "Payant"
  const NonCommuniques: string := "Tarifs non communiqués"

  /** Where a marker is added: the marker cluster of one of three layers, or,
      for every other category, the "Libre participation" layer itself (the
      cluster created inside that layer never receives a marker). */
  datatype Destination = GratuitCluster | PayantCluster | UnknownCluster | LibreParticipationLayer

  datatype Colour = Red | Green | Blue | Black

  /** The destination chosen by the `if/elif/else` chain on `tarifentree`. */
  function DestinationOf(tarif: string): (d: Destination)
    ensures d == GratuitCluster <==> tarif == Gratuit
    ensures d == PayantCluster <==> tarif == Payant
    ensures d == UnknownCluster <==> tarif == NonCommuniques
    ensures d == LibreParticipationLayer <==> tarif !in {Gratuit, Payant, NonCommuniques}
  {
    if tarif == Gratuit then GratuitCluster
    else if tarif == Payant then PayantCluster
    else if tarif == NonCommuniques then UnknownCluster
    else LibreParticipationLayer
  }

  /** The one colour the markers of a destination carry. */
  function LayerColour(d: Destination): Colour {
    match d
    case GratuitCluster => Red
    case PayantCluster => Green
    case UnknownCluster => Blue
    case LibreParticipationLayer => Black
  }

  /** `get_icon`: the icon colour of a record, decided by its category alone.
      It agrees with the destination of the same record, so each destination
      holds markers of a single colour, and no two destinations share one. */
  function IconColour(tarif: string): (c: Colour)
    ensures c == LayerColour(DestinationOf(tarif))
    ensures forall d: Destination :: LayerColour(d) == c ==> d == DestinationOf(tarif)
  {
    if tarif == Gratuit then Red
    else if tarif == Payant then Green
    else if tarif == NonCommuniques then Blue
    else Black
  }
}
