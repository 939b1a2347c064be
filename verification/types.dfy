/** The actuator motion enumeration shared by the decoder and the controller.
    Its header (types.hpp) is not part of this model; the three values are the
    ones the decoder names. */
module Types {

  datatype ActuatorMotion = None | Extending | Retracting

}
