// SimpleClasses.py: the plain records the network is built from.

/** A road connection from lanes in_link_lanes = (first, last) of in_link to out_link. */
datatype RoadConnection = RoadConnection(id: int, inLink: int, inLinkLanes: (int, int), outLink: int)

/** Road parameters: capacity [veh/h/lane], speed [km/h], jam density [veh/km/lane]. */
datatype RoadParams = RoadParams(capacity: real, speed: real, jamDensity: real)
