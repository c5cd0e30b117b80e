// static.py: the service-period sampler and the global vehicle-id counter.

/** The arrival process get_service_period can draw from. */
datatype Process = Poisson | Deterministic | UnknownProcess

/** get_service_period hard-codes `process = 'poisson'`. */
const ServiceProcess: Process := Poisson

/**
 * get_service_period for a given process.  `expDraw` stands for
 * -log(1 - U) with U uniform on [0, 1): an exponential draw of mean 1, so
 * never negative.  A non-positive rate gives None; an unknown process
 * falls through with period 0.
 */
function ServicePeriod(rate: real, process: Process, expDraw: real): (r: Option<real>)
  requires expDraw >= 0.0
  ensures r.None? <==> rate <= 0.0
  ensures r.Some? ==> r.value >= 0.0
  ensures r.Some? && process == Deterministic ==> r.value * rate == 1.0
  ensures r.Some? && process == Poisson ==> r.value * rate == expDraw
  ensures r.Some? && process == UnknownProcess ==> r.value == 0.0
{
  if rate <= 0.0 then None
  else match process
    case Poisson => Some(expDraw / rate)
    case Deterministic => Some(1.0 / rate)
    case UnknownProcess => Some(0.0)
}

/** get_service_period as the code calls it, always with the Poisson process. */
function GetServicePeriod(rate: real, expDraw: real): (r: Option<real>)
  requires expDraw >= 0.0
  ensures r.None? <==> rate <= 0.0
  ensures r.Some? ==> r.value >= 0.0 && r.value * rate == expDraw
{
  ServicePeriod(rate, ServiceProcess, expDraw)
}

/** The module-level `vehicle_id_count` and get_vehicle_id, which bumps it. */
class VehicleIdCounter {
  var count: int

  /** The module starts with vehicle_id_count = 0. */
  constructor ()
    ensures count == 0
  {
    count := 0;
  }

  /**
   * get_vehicle_id: increments the counter by one and returns the new value,
   * so the first id is 1 and every id is larger than all earlier ones.
   */
  method GetVehicleId() returns (id: int)
    modifies this
    ensures count == old(count) + 1 && id == count && id > old(count)
  {
    count := count + 1;
    id := count;
  }
}
